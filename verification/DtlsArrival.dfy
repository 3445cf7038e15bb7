/** What arrives is put together: the fragments of a message, in whatever order and overlap, make up
    the message. */
module DtlsArrival {
  import opened Words
  import opened SslAead
  import opened DtlsRecord
  import opened DtlsMessage
  import opened DtlsReceive
  import opened DtlsSend
  import opened DtlsRun

  // ------------------------------------------------------------- fragments

  /** Something of message n has arrived. */
  predicate Started(r: Receiver, n: nat) {
    |r.ring| == 7 && r.ring[n % 7].Some? && r.ring[n % 7].value.seqNum == n
  }

  /** Byte j of message n has arrived. */
  predicate Got(r: Receiver, n: nat, j: nat) {
    Started(r, n) && j < |r.ring[n % 7].value.cells| && r.ring[n % 7].value.cells[j].Some?
  }

  ghost predicate RingTrue(sent: seq<Message>, r: Receiver) {
    forall i :: 0 <= i < |r.ring| && r.ring[i].Some? ==> TrueAssembly(sent, r.ring[i].value)
  }

  predicate Inside(f: Fragment, n: nat, j: nat) { f.seqNum == n && f.off <= j < f.off + |f.body| }

  /** A true fragment of a message in the receive window, no longer than the receiver takes.  In epoch
      1 only the next message is taken. */
  predicate Welcome(sent: seq<Message>, r: Receiver, f: Fragment) {
    && TrueFragment(sent, f) && r.readSeq <= f.seqNum < r.readSeq + 7 && f.msgLen <= r.maxLen
    && (r.records.epoch == 1 ==> f.seqNum == r.readSeq)
  }

  lemma {:induction false} TakesWelcome(sent: seq<Message>, r: Receiver, f: Fragment)
    requires RingOk(r) && RingTrue(sent, r) && Welcome(sent, r, f)
    ensures var q := TakeFragment(r, f);
      && q.1 == None && q.0 == r.(ring := q.0.ring) && RingOk(q.0) && RingTrue(sent, q.0)
      && (forall n: nat :: Started(q.0, n) <==> Started(r, n) || n == f.seqNum)
      && (forall n: nat, j: nat :: Got(q.0, n, j) <==> Got(r, n, j) || Inside(f, n, j))
  {
    hide RingOk, TrueFragment, InSlot;
    FragmentParts(sent, f);
    TakeFragmentOk(r, f);
    RingLength(r);
    IncomingTrue(sent, r, f);
    var slot := f.seqNum % 7;
    var a := Incoming(r, f).value;
    var b := if Complete(a) then a else Filled(a, f.off, f.body);
    var q := TakeFragment(r, f).0;
    assert q == r.(ring := r.ring[slot := Some(b)]);
    FilledTrue(sent, a, f);
    FilledCells(a, b, f);
    forall n: nat ensures Started(q, n) <==> Started(r, n) || n == f.seqNum {
      if n % 7 == slot && Started(r, n) { WindowNumber(r, n, f.seqNum); }
    }
    forall n: nat, j: nat ensures Got(q, n, j) <==> Got(r, n, j) || Inside(f, n, j) {
      if n == f.seqNum { IncomingCells(r, f, j); }
      else if n % 7 == slot && Started(r, n) { WindowNumber(r, n, f.seqNum); }
    }
  }

  lemma {:induction false} FragmentParts(sent: seq<Message>, f: Fragment)
    requires TrueFragment(sent, f)
    ensures FragmentFits(f) && f.seqNum < |sent| && f.mtype == sent[f.seqNum].mtype
        && f.msgLen == |sent[f.seqNum].body| && f.off + |f.body| <= f.msgLen
  {
  }

  lemma {:induction false} RingLength(r: Receiver)
    requires RingOk(r)
    ensures |r.ring| == 7
  {
  }

  /** Two numbers with one slot in the window are the same. */
  lemma {:induction false} WindowNumber(r: Receiver, n: nat, m: nat)
    requires RingOk(r) && Started(r, n) && r.readSeq <= m < r.readSeq + 7 && n % 7 == m % 7
    ensures n == m
  {
    assert InSlot(r.readSeq, n % 7, r.ring[n % 7].value);
    SameNumber(r.readSeq, n, m);
  }

  lemma {:induction false} IncomingTrue(sent: seq<Message>, r: Receiver, f: Fragment)
    requires RingOk(r) && RingTrue(sent, r) && Welcome(sent, r, f)
    ensures Incoming(r, f).Some? && TrueAssembly(sent, Incoming(r, f).value)
  {
    hide InSlot;
    var slot := r.ring[f.seqNum % 7];
    if slot.Some? {
      assert TrueAssembly(sent, slot.value);
      assert InSlot(r.readSeq, f.seqNum % 7, slot.value);
      NumberOfSlot(r, f.seqNum);
    }
  }

  lemma {:induction false} NumberOfSlot(r: Receiver, n: nat)
    requires RingOk(r) && r.readSeq <= n < r.readSeq + 7 && r.ring[n % 7].Some?
    ensures r.ring[n % 7].value.seqNum == n
  {
    var a := r.ring[n % 7].value;
    assert InSlot(r.readSeq, n % 7, a);
    SameNumber(r.readSeq, a.seqNum, n);
  }

  /** The entry a fragment goes to has what was there, or nothing. */
  lemma {:induction false} IncomingCells(r: Receiver, f: Fragment, j: nat)
    requires RingOk(r) && r.readSeq <= f.seqNum < r.readSeq + 7 && Incoming(r, f).Some?
    ensures var a := Incoming(r, f).value; j < |a.cells| && a.cells[j].Some? <==> Got(r, f.seqNum, j)
  {
    hide InSlot;
    if r.ring[f.seqNum % 7].Some? { NumberOfSlot(r, f.seqNum); }
  }

  lemma {:induction false} FilledCells(a: Assembly, b: Assembly, f: Fragment)
    requires f.off + |f.body| <= |a.cells| && b == if Complete(a) then a else Filled(a, f.off, f.body)
    ensures b.seqNum == a.seqNum && b.mtype == a.mtype && |b.cells| == |a.cells|
    ensures forall j :: 0 <= j < |b.cells| ==> (b.cells[j].Some? <==> a.cells[j].Some? || f.off <= j < f.off + |f.body|)
  {
  }

  /** Some fragments, one behind the other. */
  function Concatenated(fs: seq<Fragment>): seq<Byte> {
    if fs == [] then [] else FragmentBytes(fs[0]) + Concatenated(fs[1..])
  }

  ghost predicate AnyInside(fs: seq<Fragment>, n: nat, j: nat) { exists k :: 0 <= k < |fs| && Inside(fs[k], n, j) }

  ghost predicate AnyOf(fs: seq<Fragment>, n: nat) { exists k :: 0 <= k < |fs| && fs[k].seqNum == n }

  /** However many fragments of however many messages, in any order and overlap: no alert is raised,
      and what has arrived afterwards is what had arrived before and what the fragments hold. */
  lemma {:induction false} TakesAll(sent: seq<Message>, r: Receiver, fs: seq<Fragment>)
    requires RingOk(r) && RingTrue(sent, r) && forall k :: 0 <= k < |fs| ==> Welcome(sent, r, fs[k])
    ensures var q := TakeAll(r, Concatenated(fs));
      && q.1 == None && q.0 == r.(ring := q.0.ring) && RingOk(q.0) && RingTrue(sent, q.0)
      && (forall n: nat :: Started(q.0, n) <==> Started(r, n) || AnyOf(fs, n))
      && (forall n: nat, j: nat :: Got(q.0, n, j) <==> Got(r, n, j) || AnyInside(fs, n, j))
    decreases |fs|
  {
    hide RingOk, RingTrue, Welcome, Started, Got, Inside, TakeFragment, ParseFragment, FragmentBytes;
    if fs != [] {
      var f, rest := fs[0], fs[1..];
      FragmentLong(sent, r, f);
      ParseBack(f, Concatenated(rest));
      TakesWelcome(sent, r, f);
      var q := TakeFragment(r, f).0;
      forall k | 0 <= k < |rest| ensures Welcome(sent, q, rest[k]) { StillWelcome(sent, r, q, fs[k + 1]); }
      TakesAll(sent, q, rest);
      AnyFirst(fs);
    }
  }

  lemma {:induction false} FragmentLong(sent: seq<Message>, r: Receiver, f: Fragment)
    requires Welcome(sent, r, f)
    ensures FragmentFits(f) && FragmentBytes(f) != []
  {
  }

  lemma {:induction false} StillWelcome(sent: seq<Message>, r: Receiver, q: Receiver, f: Fragment)
    requires Welcome(sent, r, f) && q == r.(ring := q.ring)
    ensures Welcome(sent, q, f)
  {
  }

  lemma {:induction false} AnyFirst(fs: seq<Fragment>)
    requires fs != []
    ensures forall n: nat :: AnyOf(fs, n) <==> n == fs[0].seqNum || AnyOf(fs[1..], n)
    ensures forall n: nat, j: nat :: AnyInside(fs, n, j) <==> Inside(fs[0], n, j) || AnyInside(fs[1..], n, j)
  {
    hide Inside;
    var rest := fs[1..];
    forall n: nat ensures AnyOf(fs, n) <==> n == fs[0].seqNum || AnyOf(rest, n) {
      if AnyOf(rest, n) { var k :| 0 <= k < |rest| && rest[k].seqNum == n; assert fs[k + 1].seqNum == n; }
      if AnyOf(fs, n) { var k :| 0 <= k < |fs| && fs[k].seqNum == n; if k > 0 { assert rest[k - 1].seqNum == n; } }
    }
    forall n: nat, j: nat ensures AnyInside(fs, n, j) <==> Inside(fs[0], n, j) || AnyInside(rest, n, j) {
      if AnyInside(rest, n, j) { var k :| 0 <= k < |rest| && Inside(rest[k], n, j); assert Inside(fs[k + 1], n, j); }
      if AnyInside(fs, n, j) { var k :| 0 <= k < |fs| && Inside(fs[k], n, j); if k > 0 { assert Inside(rest[k - 1], n, j); } }
    }
  }

  /** All of message n has arrived. */
  ghost predicate HasAll(sent: seq<Message>, r: Receiver, n: nat) {
    n < |sent| && Started(r, n) && forall j: nat :: j < |sent[n].body| ==> Got(r, n, j)
  }

  /** A message of which all has arrived is put together, and handed out when it is its turn. */
  lemma {:induction false} WholeMessage(sent: seq<Message>, r: Receiver, n: nat)
    requires RingOk(r) && RingTrue(sent, r) && HasAll(sent, r, n)
    ensures var a := r.ring[n % 7].value; Complete(a) && a.mtype == sent[n].mtype && BodyOf(a) == sent[n].body
    ensures r.readSeq == n ==> GetMessage(r) == Some(sent[n])
  {
    hide RingOk;
    RingLength(r);
    var a := r.ring[n % 7].value;
    assert TrueAssembly(sent, a);
    forall j | 0 <= j < |a.cells| ensures a.cells[j].Some? { assert Got(r, n, j); }
    assert BodyOf(a) == sent[n].body;
  }

  /** The fragments of a message of the window, whose ranges cover it, put it together, in any order
      and overlap, among fragments of other messages. */
  lemma {:induction false} Reassembles(sent: seq<Message>, r: Receiver, fs: seq<Fragment>, n: nat)
    requires RingOk(r) && RingTrue(sent, r) && forall k :: 0 <= k < |fs| ==> Welcome(sent, r, fs[k])
    requires n < |sent| && AnyOf(fs, n) && forall j: nat :: j < |sent[n].body| ==> AnyInside(fs, n, j)
    ensures var q := TakeAll(r, Concatenated(fs));
      && q.1 == None && RingOk(q.0) && q.0.ring[n % 7].Some?
      && var a := q.0.ring[n % 7].value;
         a.seqNum == n && Complete(a) && a.mtype == sent[n].mtype && BodyOf(a) == sent[n].body
         && (r.readSeq == n ==> GetMessage(q.0) == Some(sent[n]))
  {
    hide RingOk, RingTrue, Welcome, TakeAll, Concatenated, AnyOf, AnyInside, Got, Complete;
    TakesAll(sent, r, fs);
    var q := TakeAll(r, Concatenated(fs)).0;
    WholeMessage(sent, q, n);
  }

  /** Taking another message out leaves it as it is. */
  lemma {:induction false} NextKeeps(sent: seq<Message>, r: Receiver, n: nat)
    requires RingOk(r) && RingTrue(sent, r) && GetMessage(r).Some? && HasAll(sent, r, n) && n != r.readSeq
    ensures RingTrue(sent, NextMessage(r)) && HasAll(sent, NextMessage(r), n)
  {
    hide NextMessage, GetMessage, TrueAssembly, InSlot;
    NextParts(r);
    RingLength(r);
    var q := NextMessage(r);
    if n % 7 == r.readSeq % 7 { WindowNumber(r, n, r.readSeq); }
    forall j: nat | j < |sent[n].body| ensures Got(q, n, j) { assert Got(r, n, j); }
  }
}
