/** A flight whose packets all arrive is delivered: whatever the order in which they come, and
    however often each of them does. */
module DtlsDelivery {
  import opened Words
  import opened SslAead
  import DtlsWindow
  import opened DtlsRecord
  import opened DtlsMessage
  import opened DtlsReceive
  import opened DtlsSend
  import opened DtlsRun
  import opened DtlsHistory
  import opened DtlsArrival

  // ------------------------------------------------------------- one record

  /** The fragment a handshake record carries. */
  function Piece(d: Desc): Fragment {
    var p := ParseFragment(d.plain);
    if p.Some? then p.value.fragment else Fragment(0, 0, 0, 0, [])
  }

  lemma {:induction false} PieceTrue(keys: nat -> Key, sent: seq<Message>, d: Desc)
    requires KeysOk(keys) && TrueDesc(keys, sent, d) && d.recordType == HANDSHAKE
    ensures TrueFragment(sent, Piece(d)) && d.plain == FragmentBytes(Piece(d))
    ensures NumberIn(d.plain) == Piece(d).seqNum
  {
    hide KeysOk, FragmentBytes, ParseFragment, Bytes;
    var f :| TrueFragment(sent, f) && d.plain == FragmentBytes(f);
    ParseBack(f, []);
    assert FragmentBytes(f) + [] == FragmentBytes(f);
  }

  /** A fragment of a message that was taken out already: it is passed over. */
  predicate Old(r: Receiver, f: Fragment) {
    f.seqNum < r.readSeq && f.msgLen <= r.maxLen && r.records.epoch != 1
  }

  /** A record that raises no alert, whether it is sealed under the reader's key or not. */
  ghost predicate Fits(keys: nat -> Key, sent: seq<Message>, k: nat, r: Receiver, d: Desc)
    requires KeysOk(keys)
  {
    && TrueDesc(keys, sent, d) && VersionOk(keys(k).context, d.version)
    && |d.plain| <= 16384 && |Bytes(keys, d)| - 13 <= 16704
    && (d.key == k && d.recordType == HANDSHAKE ==> Old(r, Piece(d)) || Welcome(sent, r, Piece(d)))
    && (d.key == k && d.recordType == CHANGE_CIPHER_SPEC ==> keys(k).context.isNull)
  }

  /** What the record carries has arrived. */
  ghost predicate Holds(r: Receiver, d: Desc) {
    d.recordType == HANDSHAKE ==>
      var f := Piece(d);
      f.seqNum < r.readSeq || (Started(r, f.seqNum) && forall j: nat :: Inside(f, f.seqNum, j) ==> Got(r, f.seqNum, j))
  }

  /** Nothing that had arrived is lost. */
  ghost predicate Grows(r: Receiver, q: Receiver) {
    && q.readSeq == r.readSeq && q.maxLen == r.maxLen && q.hasMessage == r.hasMessage
    && q.records == r.records.(window := q.records.window)
    && (forall n: nat :: Started(r, n) ==> Started(q, n))
    && (forall n: nat, j: nat :: Got(r, n, j) ==> Got(q, n, j))
  }

  lemma {:induction false} GrowsThen(r: Receiver, q: Receiver, p: Receiver)
    requires Grows(r, q) && Grows(q, p)
    ensures Grows(r, p)
  {
    hide Started, Got;
  }

  lemma {:induction false} StillHolds(r: Receiver, q: Receiver, d: Desc)
    requires Grows(r, q) && Holds(r, d)
    ensures Holds(q, d)
  {
    hide Started, Got, Piece;
  }

  lemma {:induction false} StillFits(keys: nat -> Key, sent: seq<Message>, k: nat, r: Receiver, q: Receiver, d: Desc)
    requires KeysOk(keys) && Fits(keys, sent, k, r, d) && Grows(r, q)
    ensures Fits(keys, sent, k, q, d)
  {
    hide KeysOk, TrueDesc, VersionOk, Bytes, Piece, TrueFragment, Started, Got;
  }

  function Number(k: nat, d: Desc): nat { DtlsWindow.Combined(k % DtlsRecord.TWO16, d.seqNum) }

  /** The verdict on a record: one of another key is discarded and so is one seen before, any other
      is opened; no other record of the packet is touched. */
  lemma {:induction false} OpensExactly(keys: nat -> Key, sent: seq<Message>, k: nat, r: Receiver, d: Desc,
      rest: seq<Byte>)
    requires KeysOk(keys) && ReceiverOk(keys, sent, k, r) && k < DtlsRecord.TWO16 && !r.records.closed
        && Fits(keys, sent, k, r, d)
    ensures var o := OpenRecord(r.records, Bytes(keys, d) + rest); var n := |Bytes(keys, d)|;
      if d.key != k || DtlsWindow.ShouldDiscard(r.records.window, Number(k, d)) then o == (r.records, Discard(n))
      else o == (WithNumber(k, r, d).records, Record(d.recordType, d.plain, n))
  {
    hide OpenRecord, DtlsWindow.ShouldDiscard, BigEndian, Body, VersionOk, KeyOk, WellFormed, RingOk, FragmentBytes,
         TrueFragment, DtlsWindow.Recorded,
         DtlsWindow.Combined, Piece, Welcome;
    FirstKey(keys);
    RecordBack(keys(d.key), d.recordType, d.version, d.key, d.seqNum, d.plain, r.records, rest);
  }

  /** The contents of a record that raises no alert. */
  lemma {:induction false} TakesQuietly(keys: nat -> Key, sent: seq<Message>, k: nat, r: Receiver, d: Desc)
    requires KeysOk(keys) && ReceiverOk(keys, sent, k, r) && Fits(keys, sent, k, r, d) && d.key == k
    ensures var t := TakeRecord(r, d.recordType, d.plain);
      && t.1 == Success && ReceiverOk(keys, sent, k, t.0) && Grows(r, t.0) && t.0.records == r.records && Holds(t.0, d)
  {
    hide KeysOk, RingOk, TakeAll, FragmentBytes, ParseFragment, WellFormed, Bytes, VersionOk, TrueAssembly, Started,
         Got, Inside;
    TrueContents(keys, sent, d);
    RingAlone(r);
    if d.recordType == HANDSHAKE {
      PieceTrue(keys, sent, d);
      var f := Piece(d);
      PieceTaken(keys, sent, k, r, f);
      TakeRecordTrue(keys, sent, k, r, d.recordType, d.plain);
    } else {
      CcsTrue(keys, sent, k, r);
      CcsGrows(r);
    }
  }

  lemma {:induction false} CcsTrue(keys: nat -> Key, sent: seq<Message>, k: nat, r: Receiver)
    requires KeysOk(keys) && ReceiverOk(keys, sent, k, r)
    ensures ReceiverOk(keys, sent, k, r.(hasCcs := true))
  {
    hide KeysOk, TrueAssembly, WellFormed;
  }

  lemma {:induction false} CcsGrows(r: Receiver)
    ensures Grows(r, r.(hasCcs := true))
  {
  }

  lemma {:induction false} PieceTaken(keys: nat -> Key, sent: seq<Message>, k: nat, r: Receiver, f: Fragment)
    requires KeysOk(keys) && ReceiverOk(keys, sent, k, r) && TrueFragment(sent, f) && (Old(r, f) || Welcome(sent, r, f))
    ensures var q := TakeAll(r, FragmentBytes(f));
      && q.1 == None && Grows(r, q.0) && q.0.records == r.records
      && (f.seqNum < r.readSeq || (Started(q.0, f.seqNum) && forall j: nat :: Inside(f, f.seqNum, j) ==> Got(q.0, f.seqNum, j)))
  {
    hide KeysOk, RingOk, FragmentBytes, ParseFragment, WellFormed, Started, Got, Inside;
    ParseBack(f, []);
    assert FragmentBytes(f) + [] == FragmentBytes(f);
    assert FragmentBytes(f) != [];
    TakeFragmentOk(r, f);
    var q := TakeFragment(r, f);
    assert TakeAll(q.0, []) == (q.0, None);
    if Welcome(sent, r, f) { TakesWelcome(sent, r, f); } else { OldTaken(r, f); }
  }

  lemma {:induction false} OldTaken(r: Receiver, f: Fragment)
    requires RingOk(r) && FragmentFits(f) && Old(r, f) && f.off + |f.body| <= f.msgLen
    ensures TakeFragment(r, f) == (r, None)
  {
    hide RingOk, Incoming, Filled;
  }

  // ------------------------------------------------------------- the records of a flight

  /** A receiver on which some records are coming in: `seen` are the numbers it took under its key. */
  ghost predicate Receiving(keys: nat -> Key, sent: seq<Message>, k: nat, r: Receiver, ds: seq<Desc>, seen: set<nat>)
    requires KeysOk(keys)
  {
    && ReceiverOk(keys, sent, k, r) && k < DtlsRecord.TWO16 && !r.records.closed && DtlsWindow.Means(r.records.window, seen)
    && (forall i :: 0 <= i < |ds| ==> Fits(keys, sent, k, r, ds[i]))
    && (forall i :: 0 <= i < |ds| && ds[i].key == k ==> Expected(k, r, ds[i], seen))
    && (forall i, j :: 0 <= i < |ds| && 0 <= j < |ds| && ds[i].key == k && ds[j].key == k ==> Near(k, ds[i], ds[j]))
    && Distinct(ds)
  }

  predicate Distinct(ds: seq<Desc>) {
    forall a, b :: 0 <= a < b < |ds| && ds[a].key == ds[b].key ==> ds[a].seqNum != ds[b].seqNum
  }

  /** It is not too old, and if it was taken its contents are there. */
  ghost predicate Expected(k: nat, r: Receiver, d: Desc, seen: set<nat>) {
    && (forall t :: t in seen ==> t < Number(k, d) + 64)
    && (Number(k, d) in seen ==> Holds(r, d))
  }

  predicate Near(k: nat, d: Desc, e: Desc) { Number(k, e) < Number(k, d) + 64 }

  /** Opening the next record of a packet. */
  lemma {:induction false} OpensOne(keys: nat -> Key, sent: seq<Message>, k: nat, r: Receiver, ds: seq<Desc>,
      seen: set<nat>, x: nat, rest: seq<Byte>)
    returns (more: set<nat>)
    requires KeysOk(keys) && Receiving(keys, sent, k, r, ds, seen) && x < |ds|
    ensures var o := OpenHandshake(r, Bytes(keys, ds[x]) + rest);
      && o.consumed == |Bytes(keys, ds[x])| && (o.outcome == Success || o.outcome == Discarded)
      && Grows(r, o.receiver) && Receiving(keys, sent, k, o.receiver, ds, more)
      && (ds[x].key == k ==> Holds(o.receiver, ds[x]))
  {
    hide KeysOk, ReceiverOk, Fits, Holds, OpenRecord, TakeRecord, DtlsWindow.Means, DtlsWindow.ShouldDiscard,
         DtlsWindow.Recorded, Bytes, Number, WithNumber, Near,
         Grows, WellFormed, RingOk;
    var d := ds[x];
    var input := Bytes(keys, d) + rest;
    OpensExactly(keys, sent, k, r, d, rest);
    ReceiverParts(keys, sent, k, r);
    assert Expected(k, r, d, seen) || d.key != k;
    more := seen;
    DtlsWindow.DiscardExact(r.records.window, seen, Number(k, d));
    if d.key != k || DtlsWindow.ShouldDiscard(r.records.window, Number(k, d)) {
      SameReceiver(r);
    } else {
      more := seen + {Number(k, d)};
      var q := WithNumber(k, r, d);
      DtlsWindow.RecordMeans(r.records.window, seen, Number(k, d));
      NumberedGrows(keys, sent, k, r, d);
      StillFits(keys, sent, k, r, q, d);
      TakesQuietly(keys, sent, k, q, d);
      var p := TakeRecord(q, d.recordType, d.plain).0;
      GrowsThen(r, q, p);
      StillReceiving(keys, sent, k, r, p, ds, seen, x);
    }
  }

  lemma {:induction false} ReceiverParts(keys: nat -> Key, sent: seq<Message>, k: nat, r: Receiver)
    requires KeysOk(keys) && ReceiverOk(keys, sent, k, r)
    ensures RingOk(r) && WellFormed(r.records.key.context)
  {
    hide KeysOk, RingOk, WellFormed, TrueAssembly;
  }

  lemma {:induction false} SameReceiver(r: Receiver)
    ensures Grows(r, r) && r.(records := r.records) == r
  {
    hide Started, Got;
  }

  lemma {:induction false} NumberedGrows(keys: nat -> Key, sent: seq<Message>, k: nat, r: Receiver, d: Desc)
    requires KeysOk(keys) && ReceiverOk(keys, sent, k, r) && RingOk(r)
    ensures var q := WithNumber(k, r, d);
      && q == r.(records := q.records) && q.records == r.records.(window := DtlsWindow.Recorded(r.records.window, Number(k, d)))
      && Grows(r, q) && ReceiverOk(keys, sent, k, q)
  {
    hide KeysOk, RingOk, WellFormed, TrueAssembly, DtlsWindow.Recorded, DtlsWindow.Combined;
    RingAlone(r);
    SameRingGrows(r, WithNumber(k, r, d));
  }

  lemma {:induction false} SameRingGrows(r: Receiver, q: Receiver)
    requires q == r.(records := r.records.(window := q.records.window))
    ensures Grows(r, q)
  {
  }

  lemma {:induction false} StillReceiving(keys: nat -> Key, sent: seq<Message>, k: nat, r: Receiver, q: Receiver,
      ds: seq<Desc>, seen: set<nat>, x: nat)
    requires KeysOk(keys) && Receiving(keys, sent, k, r, ds, seen) && x < |ds| && ds[x].key == k
    requires Grows(r, q) && ReceiverOk(keys, sent, k, q) && Holds(q, ds[x])
        && DtlsWindow.Means(q.records.window, seen + {Number(k, ds[x])})
    ensures Receiving(keys, sent, k, q, ds, seen + {Number(k, ds[x])})
  {
    hide KeysOk, ReceiverOk, Fits, Holds, DtlsWindow.Means, Started, Got;
    var more := seen + {Number(k, ds[x])};
    forall i | 0 <= i < |ds| ensures Fits(keys, sent, k, q, ds[i]) { StillFits(keys, sent, k, r, q, ds[i]); }
    forall i | 0 <= i < |ds| && ds[i].key == k ensures Expected(k, q, ds[i], more) {
      assert Expected(k, r, ds[i], seen) && Near(k, ds[i], ds[x]);
      if Number(k, ds[i]) in more {
        if Number(k, ds[i]) in seen { StillHolds(r, q, ds[i]); } else { SameNumberSame(keys, sent, k, q, ds, x, i); }
      }
    }
  }

  /** Two records of a flight with one number would be the same record. */
  lemma {:induction false} SameNumberSame(keys: nat -> Key, sent: seq<Message>, k: nat, q: Receiver, ds: seq<Desc>,
      x: nat, i: nat)
    requires x < |ds| && i < |ds| && Holds(q, ds[x]) && Number(k, ds[x]) == Number(k, ds[i])
    requires Distinct(ds) && ds[x].key == ds[i].key
    ensures Holds(q, ds[i])
  {
    hide Holds;
  }

  // ------------------------------------------------------------- packets

  /** Every call of dtls1_open_handshake in the run takes its record or discards it: no alert, no
      error, no end of input. */
  function Quiet(keys: nat -> Key, w: World, actions: seq<Action>): bool
    requires KeysOk(keys) && Ready(w)
    decreases |actions|
  {
    if actions == [] then true
    else
      ApplyReady(keys, w, actions[0]);
      (actions[0].Open? ==> OpenHandshake(w.receiver, w.input).outcome in {Success, Discarded}) && Quiet(keys, Apply(keys, w, actions[0]), actions[1..])
  }

  lemma {:induction false} RunFirst(keys: nat -> Key, w: World, a: Action, rest: seq<Action>)
    requires KeysOk(keys) && Ready(w)
    ensures Ready(Apply(keys, w, a)) && Run(keys, w, [a] + rest) == Run(keys, Apply(keys, w, a), rest)
    ensures Quiet(keys, w, [a] + rest) <==>
            (a.Open? ==> OpenHandshake(w.receiver, w.input).outcome in {Success, Discarded}) && Quiet(keys, Apply(keys, w, a), rest)
  {
    hide KeysOk, Ready, Apply, OpenHandshake;
    ApplyReady(keys, w, a);
    assert ([a] + rest)[1..] == rest;
  }

  lemma {:induction false} RunThen(keys: nat -> Key, w: World, a: seq<Action>, b: seq<Action>)
    requires KeysOk(keys) && Ready(w)
    ensures Ready(Run(keys, w, a)) && Run(keys, w, a + b) == Run(keys, Run(keys, w, a), b)
    ensures Quiet(keys, w, a + b) <==> Quiet(keys, w, a) && Quiet(keys, Run(keys, w, a), b)
    decreases |a|
  {
    hide KeysOk, Ready, Apply, OpenHandshake;
    if a == [] {
      assert [] + b == b;
    } else {
      ApplyReady(keys, w, a[0]);
      RunThen(keys, Apply(keys, w, a[0]), a[1..], b);
      assert (a + b)[0] == a[0] && (a + b)[1..] == a[1..] + b;
    }
  }

  function Opens(n: nat): seq<Action> { seq(n, i => Open) }

  ghost predicate AllHeld(k: nat, r: Receiver, ds: seq<Desc>) {
    forall i :: 0 <= i < |ds| && ds[i].key == k ==> Holds(r, ds[i])
  }

  lemma {:induction false} StillHeld(k: nat, r: Receiver, q: Receiver, ds: seq<Desc>)
    requires Grows(r, q) && AllHeld(k, r, ds)
    ensures AllHeld(k, q, ds)
  {
    hide Grows, Holds;
    forall i | 0 <= i < |ds| && ds[i].key == k ensures Holds(q, ds[i]) { StillHolds(r, q, ds[i]); }
  }

  /** Reading a packet of the flight to its end. */
  lemma {:induction false} ReadsPacket(keys: nat -> Key, w: World, ds: seq<Desc>, seen: set<nat>,
      p: seq<Desc>) returns (more: set<nat>)
    requires KeysOk(keys) && Ready(w) && Receiving(keys, w.sent, w.readKey, w.receiver, ds, seen) && Among(p, ds)
    requires w.input == PacketBytes(keys, p)
    ensures var u := Run(keys, w, Opens(|p|));
      && Ready(u) && Quiet(keys, w, Opens(|p|)) && u == w.(receiver := u.receiver, input := [])
      && Receiving(keys, u.sent, u.readKey, u.receiver, ds, more) && Grows(w.receiver, u.receiver) && AllHeld(u.readKey, u.receiver, p)
    decreases |p|
  {
    hide KeysOk, Ready, Receiving, Grows, Holds, OpenHandshake, Bytes;
    if p == [] {
      more := seen;
      SameReceiver(w.receiver);
    } else {
      assert p[0] in ds;
      var x :| 0 <= x < |ds| && ds[x] == p[0];
      var rest := PacketBytes(keys, p[1..]);
      WorldRing(w);
      more := OpensOne(keys, w.sent, w.readKey, w.receiver, ds, seen, x, rest);
      var o := OpenHandshake(w.receiver, w.input);
      assert w.input[o.consumed..] == rest;
      var v := Apply(keys, w, Open);
      assert Opens(|p|) == [Open] + Opens(|p| - 1);
      RunFirst(keys, w, Open, Opens(|p| - 1));
      more := ReadsPacket(keys, v, ds, more, p[1..]);
      var u := Run(keys, v, Opens(|p| - 1));
      GrowsThen(w.receiver, v.receiver, u.receiver);
      HeldFirst(w.readKey, v.receiver, u.receiver, p);
    }
  }

  lemma {:induction false} WorldRing(w: World)
    requires Ready(w)
    ensures RingOk(w.receiver) && WellFormed(w.receiver.records.key.context)
  {
    hide RingOk, WellFormed, AtPlace;
  }

  lemma {:induction false} HeldFirst(k: nat, r: Receiver, q: Receiver, p: seq<Desc>)
    requires p != [] && Grows(r, q) && (p[0].key == k ==> Holds(r, p[0])) && AllHeld(k, q, p[1..])
    ensures AllHeld(k, q, p)
  {
    hide Grows, Holds;
    if p[0].key == k { StillHolds(r, q, p[0]); }
    forall i | 0 <= i < |p| && p[i].key == k ensures Holds(q, p[i]) { if i > 0 { assert p[i] == p[1..][i - 1]; } }
  }

  /** Packets arriving in some order, each read to its end. */
  function Reading(base: nat, packs: seq<seq<Desc>>, order: seq<nat>): seq<Action>
    requires forall i :: 0 <= i < |order| ==> order[i] < |packs|
    decreases |order|
  {
    if order == [] then []
    else [Action.Arrive(base + order[0])] + (Opens(|packs[order[0]]|) + Reading(base, packs, order[1..]))
  }

  ghost predicate OnNet(keys: nat -> Key, w: World, base: nat, packs: seq<seq<Desc>>)
    requires KeysOk(keys)
  {
    base + |packs| <= |w.net| && forall i :: 0 <= i < |packs| ==> w.net[base + i] == PacketBytes(keys, packs[i])
  }

  lemma {:induction false} ReadsAll(keys: nat -> Key, w: World, ds: seq<Desc>, seen: set<nat>, base: nat,
      packs: seq<seq<Desc>>, order: seq<nat>)
    returns (more: set<nat>)
    requires KeysOk(keys) && Ready(w) && Receiving(keys, w.sent, w.readKey, w.receiver, ds, seen)
        && OnNet(keys, w, base, packs)
    requires (forall i :: 0 <= i < |packs| ==> Among(packs[i], ds)) && forall i :: 0 <= i < |order| ==> order[i] < |packs|
    ensures var script := Reading(base, packs, order); var u := Run(keys, w, script);
      && Ready(u) && Quiet(keys, w, script) && u == w.(receiver := u.receiver, input := u.input)
      && Receiving(keys, u.sent, u.readKey, u.receiver, ds, more) && Grows(w.receiver, u.receiver)
      && forall i :: 0 <= i < |order| ==> AllHeld(u.readKey, u.receiver, packs[order[i]])
    decreases |order|
  {
    hide KeysOk, Ready, Receiving, Grows, AllHeld, OpenHandshake, Among, PacketBytes;
    if order == [] {
      more := seen;
      SameReceiver(w.receiver);
    } else {
      var p := packs[order[0]];
      var rest := Reading(base, packs, order[1..]);
      var a := Action.Arrive(base + order[0]);
      var v := Apply(keys, w, a);
      RunFirst(keys, w, a, Opens(|p|) + rest);
      more := ReadsPacket(keys, v, ds, seen, p);
      RunThen(keys, v, Opens(|p|), rest);
      var x := Run(keys, v, Opens(|p|));
      more := ReadsAll(keys, x, ds, more, base, packs, order[1..]);
      var u := Run(keys, x, rest);
      GrowsThen(w.receiver, x.receiver, u.receiver);
      StillHeld(w.readKey, x.receiver, u.receiver, p);
      forall i | 0 <= i < |order| ensures AllHeld(u.readKey, u.receiver, packs[order[i]]) {
        if i > 0 { assert order[i] == order[1..][i - 1]; }
      }
    }
  }

  // ------------------------------------------------------------- taking messages out

  function Taking(c: nat): seq<Action> {
    if c == 0 then [] else [Get] + ([Next] + Taking(c - 1))
  }

  /** Messages of which everything has arrived are taken out, one after the other. */
  lemma {:induction false} Takes(keys: nat -> Key, w: World, c: nat)
    requires KeysOk(keys) && Ready(w) && RingTrue(w.sent, w.receiver)
    requires |w.delivered| + c <= |w.sent| <= DtlsMessage.TWO16 && (c > 0 ==> w.receiver.readSeq == |w.delivered|)
    requires forall n: nat :: |w.delivered| <= n < |w.delivered| + c ==> HasAll(w.sent, w.receiver, n)
    ensures var u := Run(keys, w, Taking(c));
      Ready(u) && Quiet(keys, w, Taking(c)) && u.sent == w.sent && u.delivered == w.delivered + w.sent[|w.delivered|..|w.delivered| + c]
    decreases c
  {
    hide KeysOk, Ready, RingTrue, HasAll, OpenHandshake, Apply, NextMessage, GetMessage, RingOk, Run, Quiet;
    var n := |w.delivered|;
    if c == 0 {
      RunNothing(keys, w);
      assert w.sent[n..n] == [];
    } else {
      var rest := Taking(c - 1);
      WorldRing(w);
      WholeMessage(w.sent, w.receiver, n);
      TakeOne(keys, w, n);
      RunFirst(keys, w, Get, [Next] + rest);
      var a := Apply(keys, w, Get);
      RunFirst(keys, a, Next, rest);
      var v := Apply(keys, a, Next);
      forall m: nat | n + 1 <= m < n + c ensures HasAll(v.sent, v.receiver, m) { StillWhole(keys, w, n, m); }
      Takes(keys, v, c - 1);
      assert w.sent[n..n + c] == [w.sent[n]] + w.sent[n + 1..n + c];
      assert w.delivered + [w.sent[n]] + w.sent[n + 1..n + c] == w.delivered + ([w.sent[n]] + w.sent[n + 1..n + c]);
    }
  }

  lemma {:induction false} RunNothing(keys: nat -> Key, w: World)
    requires KeysOk(keys) && Ready(w)
    ensures Run(keys, w, []) == w && Quiet(keys, w, [])
  {
  }

  lemma {:induction false} TakeOne(keys: nat -> Key, w: World, n: nat)
    requires KeysOk(keys) && Ready(w) && RingOk(w.receiver) && RingTrue(w.sent, w.receiver) && n < |w.sent|
        && w.receiver.readSeq == n
    requires GetMessage(w.receiver) == Some(w.sent[n])
    ensures Ready(Apply(keys, w, Get))
    ensures var a := Apply(keys, w, Get); var v := Apply(keys, a, Next);
      && v == w.(receiver := v.receiver, delivered := w.delivered + [w.sent[n]])
      && v.receiver == NextMessage(w.receiver)
      && v.receiver.readSeq == (n + 1) % DtlsMessage.TWO16 && RingTrue(w.sent, v.receiver)
  {
    hide KeysOk, AtPlace, WellFormed, RingOk, TrueAssembly, GetMessage;
    ApplyReady(keys, w, Get);
    GetAgain(w.receiver);
    NextParts(w.receiver);
  }

  lemma {:induction false} GetAgain(r: Receiver)
    requires RingOk(r)
    ensures var q := r.(hasMessage := true);
      RingOk(q) && GetMessage(q) == GetMessage(r) && (GetMessage(r).Some? ==> NextMessage(q) == NextMessage(r))
  {
    hide RingOk;
    RingAlone(r);
  }

  lemma {:induction false} StillWhole(keys: nat -> Key, w: World, n: nat, m: nat)
    requires KeysOk(keys) && Ready(w) && RingOk(w.receiver) && RingTrue(w.sent, w.receiver) && n < |w.sent|
        && w.receiver.readSeq == n
    requires GetMessage(w.receiver) == Some(w.sent[n]) && HasAll(w.sent, w.receiver, m) && m != n
    ensures Ready(Apply(keys, w, Get))
    ensures HasAll(w.sent, Apply(keys, Apply(keys, w, Get), Next).receiver, m)
  {
    hide KeysOk, Ready, RingOk, RingTrue, HasAll, GetMessage, NextMessage, Apply;
    TakeOne(keys, w, n);
    NextKeeps(w.sent, w.receiver, m);
  }
}
