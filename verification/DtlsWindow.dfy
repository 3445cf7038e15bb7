/** The replay window of a DTLS reader: which record sequence numbers of the current epoch it
    still accepts (RFC 6347 section 4.1.2.6). */
module DtlsWindow {
  import opened Words

  const WINDOW_SIZE: nat := 64

  /** map and max_seq_num of DTLS1_BITMAP: bit i of map stands for sequence number max - i. */
  datatype Window = Window(map_: nat, max: nat)

  const EMPTY := Window(0, 0)

  /** dtls1_bitmap_should_discard. */
  predicate ShouldDiscard(w: Window, s: nat) {
    s <= w.max && (w.max - s >= WINDOW_SIZE || Bit(w.map_, w.max - s))
  }

  /** dtls1_bitmap_record. */
  function Recorded(w: Window, s: nat): Window {
    var shifted :=
      if s <= w.max then w.map_
      else if s - w.max >= WINDOW_SIZE then 0
      else Shl(w.map_, s - w.max) % TWO64;
    var max := if s > w.max then s else w.max;
    Window(if max - s < WINDOW_SIZE then Or(shifted, Shl(1, max - s)) else shifted, max)
  }

  /** What the window means: `seen` are the numbers recorded since it was cleared. */
  ghost predicate Means(w: Window, seen: set<nat>) {
    && (forall s :: s in seen ==> s <= w.max)
    && (w.max in seen || w.max == 0)
    && (forall i: nat :: Bit(w.map_, i) <==> i < WINDOW_SIZE && i <= w.max && w.max - i in seen)
  }

  lemma {:induction false} EmptyMeans()
    ensures Means(EMPTY, {})
  {
    forall i: nat ensures !Bit(0, i) { ZeroBit(i); }
  }

  lemma {:induction false} ShiftedBit(map_: nat, k: nat, i: nat)
    requires k < WINDOW_SIZE
    ensures Bit(Shl(map_, k) % TWO64, i) <==> k <= i < WINDOW_SIZE && Bit(map_, i - k)
  {
    var n := WINDOW_SIZE;
    WordSize(n);
    LowBits(Shl(map_, k), n, i);
    ShlBits(map_, k, i);
  }

  /** Recording a number that is not discarded adds exactly that number. */
  lemma {:induction false} RecordMeans(w: Window, seen: set<nat>, s: nat)
    requires Means(w, seen) && !ShouldDiscard(w, s)
    ensures Means(Recorded(w, s), seen + {s})
  {
    hide Bit, Or, Shl;
    var v := Recorded(w, s);
    forall i: nat ensures Bit(v.map_, i) <==> i < WINDOW_SIZE && i <= v.max && v.max - i in seen + {s} {
      if s <= w.max {
        OrBit(w.map_, w.max - s, i);
      } else if s - w.max >= WINDOW_SIZE {
        OrBit(0, 0, i);
        ZeroBit(i);
      } else {
        var k := s - w.max;
        ShiftedBit(w.map_, k, i);
        OrBit(Shl(w.map_, k) % TWO64, 0, i);
      }
    }
  }

  /** A number is refused exactly if it was recorded before, or is 64 or more behind another
      that was. */
  lemma {:induction false} DiscardExact(w: Window, seen: set<nat>, s: nat)
    requires Means(w, seen)
    ensures ShouldDiscard(w, s) <==> s in seen || exists t :: t in seen && t - s >= 64
  {
    hide Bit;
    if s in seen && w.max - s < WINDOW_SIZE { assert Bit(w.map_, w.max - s); }
  }

  // ------------------------------------------------------------- the in-place form

  /** to_u64_be. */
  method ToU64Be(input: seq<Byte>) returns (ret: nat)
    requires |input| == 8
    ensures ret == FromBigEndian(input)
  {
    hide Or;
    ret := 0;
    for i := 0 to 8
      invariant ret == FromBigEndian(input[..i])
    {
      FromBigEndianBack(input[..i]);
      NextByte(ret, i, input[i]);
      assert input[..i + 1][..i] == input[..i];
      ret := Shl(ret, 8) % TWO64;
      ret := Or(ret, input[i]);
    }
    assert input[..8] == input;
  }

  /** Making room for a byte loses no bits, and oring it in adds it. */
  lemma {:induction false} NextByte(v: nat, i: nat, b: Byte)
    requires v < Shl(1, 8 * i) && i < 8
    ensures Shl(v, 8) % TWO64 == 256 * v && Or(256 * v, b) == 256 * v + b
  {
    hide Or;
    ShlByte(v);
    ShlEight(8 * i);
    assert 256 * v < Shl(1, 8 * i + 8);
    var n := 64;
    WordSize(n);
    ShlGrows(8 * i + 8, n);
    OrLow(v, b, 8);
    ShlEight(0);
    assert Shl(1, 0) == 1;
  }

  lemma {:induction false} ShlByte(v: nat)
    ensures Shl(v, 8) == 256 * v
  {
    assert Shl(v, 8) == 2 * Shl(v, 7) == 4 * Shl(v, 6) == 8 * Shl(v, 5) == 16 * Shl(v, 4);
    assert Shl(v, 4) == 2 * Shl(v, 3) == 4 * Shl(v, 2) == 8 * Shl(v, 1) == 16 * Shl(v, 0);
  }

  lemma {:induction false} OrLow(v: nat, b: nat, k: nat)
    requires b < Shl(1, k)
    ensures Or(Shl(v, k), b) == Shl(v, k) + b
  {
    OrAbove(b, v, k);
    OrSwap(Shl(v, k), b);
  }

  lemma {:induction false} OrSwap(a: nat, b: nat)
    ensures Or(a, b) == Or(b, a)
  {
    if a > 0 && b > 0 { OrSwap(a / 2, b / 2); }
  }

  class Bitmap {
    var map_: nat
    var max: nat

    ghost function Abs(): Window
      reads this
    {
      Window(map_, max)
    }

    constructor ()
      ensures Abs() == EMPTY
    {
      map_ := 0;
      max := 0;
    }

    method Discards(seqNum: seq<Byte>) returns (discard: bool)
      requires |seqNum| == 8
      ensures discard == ShouldDiscard(Abs(), FromBigEndian(seqNum))
    {
      var s := ToU64Be(seqNum);
      if s > max { return false; }
      var idx := max - s;
      TestBit(map_, idx);
      discard := idx >= WINDOW_SIZE || And(map_, Shl(1, idx)) != 0;
    }

    method Record(seqNum: seq<Byte>)
      requires |seqNum| == 8
      modifies this
      ensures Abs() == Recorded(old(Abs()), FromBigEndian(seqNum))
    {
      var s := ToU64Be(seqNum);
      if s > max {
        var shift := s - max;
        if shift >= WINDOW_SIZE { map_ := 0; } else { map_ := Shl(map_, shift) % TWO64; }
        max := s;
      }
      var idx := max - s;
      if idx < WINDOW_SIZE { map_ := Or(map_, Shl(1, idx)); }
    }

    /** Starting a new epoch. */
    method Clear()
      modifies this
      ensures Abs() == EMPTY
    {
      map_, max := 0, 0;
    }
  }

  // ------------------------------------------------------------- whole runs

  /** What happens to a reader: a record arrives (`opens`: its body decrypts and is not too
      long), or the read cipher changes. */
  datatype Event = Arrive(epoch: nat, seqNum: nat, opens: bool) | NextEpoch

  /** `accepted` are the numbers accepted so far; those from `from` on since the last change. */
  datatype Reader = Reader(epoch: nat, window: Window, accepted: seq<(nat, nat)>, from: nat)

  const TWO48: nat := 0x1_0000_0000_0000

  /** Epochs are numbered with 16 bits. */
  const EPOCHS: nat := 0x1_0000

  /** The eight bytes of epoch and sequence number as one integer. */
  function Combined(epoch: nat, seqNum: nat): nat {
    epoch * TWO48 + seqNum
  }

  /** dtls_open_record drops a record of another epoch, a replay, and one that does not open;
      dtls1_set_read_state clears the window. */
  function Next(r: Reader, e: Event): Reader {
    match e
    case Arrive(epoch, s, opens) =>
      if epoch != r.epoch || ShouldDiscard(r.window, Combined(epoch, s)) || !opens then r
      else r.(window := Recorded(r.window, Combined(epoch, s)), accepted := r.accepted + [(epoch, s)])
    case NextEpoch => Reader((r.epoch + 1) % EPOCHS, EMPTY, r.accepted, |r.accepted|)
  }

  function Run(r: Reader, events: seq<Event>): Reader
    decreases |events|
  {
    if events == [] then r else Run(Next(r, events[0]), events[1..])
  }

  /** How often the read cipher changes. */
  function Changes(events: seq<Event>): (n: nat)
    ensures n <= |events|
  {
    if events == [] then 0 else (if events[0].NextEpoch? then 1 else 0) + Changes(events[1..])
  }

  const START := Reader(0, EMPTY, [], 0)

  ghost predicate EventsOk(events: seq<Event>) {
    forall i :: 0 <= i < |events| && events[i].Arrive? ==> events[i].seqNum < TWO48
  }

  ghost predicate Distinct(a: seq<(nat, nat)>) {
    forall i, j :: 0 <= i < j < |a| ==> a[i] != a[j]
  }

  /** What was accepted since the last change. */
  function Current(r: Reader): set<nat> {
    set i | 0 <= r.from <= i < |r.accepted| :: Combined(r.epoch, r.accepted[i].1)
  }

  ghost predicate Inv(r: Reader) {
    && r.epoch < EPOCHS && r.from <= |r.accepted|
    && (forall i :: 0 <= i < |r.accepted| ==> r.accepted[i].1 < TWO48)
    && (forall i :: r.from <= i < |r.accepted| ==> r.accepted[i].0 == r.epoch)
    && Means(r.window, Current(r))
  }

  /** As long as the epoch number has not come around. */
  ghost predicate InvUnwrapped(r: Reader) {
    && Inv(r) && Distinct(r.accepted)
    && forall i :: 0 <= i < r.from ==> r.accepted[i].0 < r.epoch
  }

  lemma {:induction false} NextInv(r: Reader, e: Event)
    requires Inv(r) && (e.Arrive? ==> e.seqNum < TWO48)
    ensures Inv(Next(r, e))
    ensures InvUnwrapped(r) && (e.NextEpoch? ==> r.epoch + 1 < EPOCHS) ==> InvUnwrapped(Next(r, e))
  {
    hide ShouldDiscard, Recorded, Means;
    var n := Next(r, e);
    match e {
      case NextEpoch =>
        EmptyMeans();
        assert Current(n) == {};
      case Arrive(epoch, s, opens) =>
        if n != r {
          var u := Combined(epoch, s);
          RecordMeans(r.window, Current(r), u);
          DiscardExact(r.window, Current(r), u);
          assert forall i :: r.from <= i < |r.accepted| && r.accepted[i] == (epoch, s) ==> u in Current(r);
          AcceptOne(r, n, s);
        }
    }
  }

  lemma {:induction false} AcceptOne(r: Reader, n: Reader, s: nat)
    requires r.from <= |r.accepted| && n.epoch == r.epoch && n.from == r.from
        && n.accepted == r.accepted + [(r.epoch, s)]
    ensures Current(n) == Current(r) + {Combined(r.epoch, s)}
  {
    hide Combined;
    assert n.accepted[|r.accepted|] == (r.epoch, s);
    forall i | 0 <= i < |r.accepted| ensures n.accepted[i] == r.accepted[i] { }
  }

  lemma {:induction false} RunInv(r: Reader, events: seq<Event>)
    requires Inv(r) && EventsOk(events)
    ensures Inv(Run(r, events))
    ensures InvUnwrapped(r) && r.epoch + Changes(events) < EPOCHS ==> InvUnwrapped(Run(r, events))
    decreases |events|
  {
    hide Inv, InvUnwrapped, ShouldDiscard, Recorded;
    if events != [] {
      NextInv(r, events[0]);
      RunInv(Next(r, events[0]), events[1..]);
    }
  }

  lemma {:induction false} StartInv()
    ensures InvUnwrapped(START)
  {
    EmptyMeans();
    assert Current(START) == {};
  }

  /** Over any arrivals and fewer than 65536 epoch changes, no (epoch, sequence number) pair is
      accepted twice. */
  lemma {:induction false} NeverTwice(events: seq<Event>)
    requires EventsOk(events) && Changes(events) < EPOCHS
    ensures Distinct(Run(START, events).accepted)
  {
    hide Run, Inv;
    StartInv();
    RunInv(START, events);
  }

  /** After any run, a number of the current epoch is refused as a replay exactly if it was
      accepted since the epoch began, or some number at least 64 ahead of it was. */
  lemma {:induction false} RefusedExactly(events: seq<Event>, s: nat)
    requires EventsOk(events) && s < TWO48
    ensures var r := Run(START, events);
      ShouldDiscard(r.window, Combined(r.epoch, s))
      <==> exists i :: 0 <= r.from <= i < |r.accepted| && (r.accepted[i] == (r.epoch, s) || r.accepted[i].1 - s >= 64)
  {
    hide Run, ShouldDiscard, Means;
    StartInv();
    RunInv(START, events);
    var r := Run(START, events);
    var u := Combined(r.epoch, s);
    DiscardExact(r.window, Current(r), u);
    if ShouldDiscard(r.window, u) {
      var v :| v in Current(r) && (v == u || v - u >= WINDOW_SIZE);
      var i :| r.from <= i < |r.accepted| && v == Combined(r.epoch, r.accepted[i].1);
      assert r.accepted[i] == (r.epoch, r.accepted[i].1);
    }
    if i :| 0 <= r.from <= i < |r.accepted| && (r.accepted[i] == (r.epoch, s) || r.accepted[i].1 - s >= WINDOW_SIZE) {
      var v := Combined(r.epoch, r.accepted[i].1);
      assert v in Current(r);
    }
  }

  // ------------------------------------------------------------- when the epoch comes around

  function Rekeys(n: nat): (events: seq<Event>)
    ensures |events| == n && forall i :: 0 <= i < n ==> events[i] == NextEpoch
  {
    seq(n, i => NextEpoch)
  }

  lemma {:induction false} RekeysRun(r: Reader, n: nat, more: seq<Event>)
    requires r.epoch < EPOCHS
    ensures Changes(Rekeys(n) + more) == n + Changes(more)
    ensures Run(r, Rekeys(n) + more)
         == Run(if n == 0 then r else Reader((r.epoch + n) % EPOCHS, EMPTY, r.accepted, |r.accepted|), more)
    decreases n
  {
    if n == 0 {
      assert Rekeys(0) + more == more;
    } else {
      assert (Rekeys(n) + more)[0] == NextEpoch && (Rekeys(n) + more)[1..] == Rekeys(n - 1) + more;
      RekeysRun(Next(r, NextEpoch), n - 1, more);
      assert ((r.epoch + 1) % EPOCHS + (n - 1)) % EPOCHS == (r.epoch + n) % EPOCHS;
    }
  }

  /** The record (0, 0), 65536 changes, and another record (0, 0). */
  lemma {:induction false} TwiceAround() returns (events: seq<Event>)
    ensures EventsOk(events) && Changes(events) == EPOCHS && !Distinct(Run(START, events).accepted)
  {
    hide Recorded, ShouldDiscard;
    var a := Arrive(0, 0, true);
    events := [a] + (Rekeys(EPOCHS) + [a]);
    assert events[1..] == Rekeys(EPOCHS) + [a];
    EmptyMeans();
    DiscardExact(EMPTY, {}, 0);
    var r := Next(START, a);
    RekeysRun(r, EPOCHS, [a]);
    var q := Reader(0, EMPTY, [(0, 0)], 1);
    assert r.accepted == [(0, 0)] && (r.epoch + EPOCHS) % EPOCHS == 0;
    assert Run(q, [a]) == Run(Next(q, a), [a][1..]) == Next(q, a);
    assert Next(q, a).accepted == [(0, 0), (0, 0)];
    assert Changes([a]) == Changes([a][1..]) == 0;
    var twice := Run(START, events).accepted;
    assert twice[0] == twice[1];
  }

  /** No pair is accepted twice in any run with at most n epoch changes, if and only if n is
      below 65536. */
  lemma {:induction false} NeverTwiceExactly(n: nat)
    ensures (forall events :: EventsOk(events) && Changes(events) <= n ==> Distinct(Run(START, events).accepted)) <==> n < EPOCHS
  {
    hide Run, Distinct, EventsOk, Changes;
    if n < EPOCHS {
      forall events | EventsOk(events) && Changes(events) <= n ensures Distinct(Run(START, events).accepted) { NeverTwice(events); }
    } else {
      var events := TwiceAround();
    }
  }
}
