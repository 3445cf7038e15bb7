/** The law of merging (developers' guide "Encoding", section "Last One Wins"): a submessage that
    arrives in two pieces is the one that holds the fields of both. */
module PbMerge {
  import opened Words
  import opened PbVarint
  import opened PbMessage
  import opened PbWire
  import opened PbGrammar
  import PbRoundTrip

  /** No fixed-count arrays: the place in one is local to a call of the decoder. */
  predicate NoFixedCount(fields: seq<Field>) { forall i :: 0 <= i < |fields| ==> !fields[i].rule.FixedCount? }

  /** Where two decoders agree that differ in which required fields they have seen. */
  ghost predicate SameBut(p: Progress,
      q: Progress) { p.slots == q.slots && p.fixed == q.fixed == None && q.seen <= p.seen }

  ghost predicate SameRead(a: Option<Read<Progress>>, b: Option<Read<Progress>>) {
    (a.Some? <==> b.Some?) && (a.Some? ==> SameBut(a.value.value, b.value.value) && a.value.rest == b.value.rest)
  }

  lemma {:induction false} OneSame(fields: seq<Field>, k: nat, w: nat, p: Progress, q: Progress, bs: seq<Byte>)
    requires NoFixedCount(fields) && k < |fields| && SameBut(p, q)
    ensures SameRead(DecOne(fields, k, w, p, bs), DecOne(fields, k, w, q, bs))
  {
    hide DecField, FixedDone;
  }

  lemma {:induction false} LoopSame(fields: seq<Field>, p: Progress, q: Progress, bs: seq<Byte>)
    requires NoFixedCount(fields) && SameBut(p, q)
    ensures SameRead(DecLoop(fields, p, bs), DecLoop(fields, q, bs))
    decreases |bs|
  {
    hide DecOne, Skip, Find, ReadVarint32, NoFixedCount, SameBut;
    if bs != [] {
      var t := ReadVarint32(bs);
      if t.Some? && t.value.value != 0 && !(fields == [] && t.value.value / 8 == 0) {
        var k, w := Find(fields, t.value.value / 8), t.value.value % 8;
        if k == |fields| {
          var rest := Skip(w, t.value.rest);
          if rest.Some? { LoopSame(fields, p, q, rest.value); }
        } else {
          OneSame(fields, k, w, p, q, t.value.rest);
          var a, b := DecOne(fields, k, w, p, t.value.rest), DecOne(fields, k, w, q, t.value.rest);
          if a.Some? { LoopSame(fields, a.value.value, b.value.value, a.value.rest); }
        }
      }
    }
  }

  lemma {:induction false} SeenMore(fields: seq<Field>, seen: set<nat>, more: set<nat>)
    requires RequiredSeenFrom(fields, seen, 0) && seen <= more
    ensures RequiredSeenFrom(fields, more, 0)
  {
    AllRequiredSeen(fields, seen, 0);
    AllRequiredSeen(fields, more, 0);
  }

  lemma {:induction false} FieldsStay(fields: seq<Field>, p: Progress, bs: seq<Byte>)
    requires NoFixedCount(fields) && p.fixed == None && Fields(fields, p, bs).Some?
    ensures var q := Fields(fields, p, bs).value; q.fixed == None && DecLoop(fields, p, bs) == Some(Read(q, []))
  {
    hide Fields, NoFixedCount;
    FieldsThen(fields, p, bs, []);
    assert bs + [] == bs;
    LoopSame(fields, p, p, bs);
  }

  /** One message behind the other in the same struct is both of them in one. */
  lemma {:induction false} MessagesMerge(fields: seq<Field>, slots: seq<Slot>, x: seq<Byte>, y: seq<Byte>)
    requires NoFixedCount(fields) && Fields(fields, Progress(slots, {}, None), x).Some?
    ensures var first := DecMessage(fields, slots, x);
      first.Some? ==> first.value.rest == []
                      && (DecMessage(fields, first.value.value, y).Some? ==>
                            DecMessage(fields, slots, x + y) == DecMessage(fields, first.value.value, y))
  {
    hide Fields, NoFixedCount, DecLoop, RequiredSeenFrom;
    var p := Progress(slots, {}, None);
    FieldsStay(fields, p, x);
    FieldsThen(fields, p, x, y);
    var a := Fields(fields, p, x).value;
    var b := Progress(a.slots, {}, None);
    LoopSame(fields, a, b, y);
    if DecMessage(fields, a.slots, y).Some? {
      SeenMore(fields, DecLoop(fields, b, y).value.value.seen, DecLoop(fields, a, y).value.value.seen);
    }
  }

  /** A required, optional or singular submessage in two pieces, each of whole fields, is the same as
      the one submessage with the fields of both. */
  lemma {:induction false} SubmessagesMerge(f: Field, s: Slot, x: seq<Byte>, one: seq<Byte>, y: seq<Byte>,
      two: seq<Byte>, both: seq<Byte>, rest: seq<Byte>)
    requires f.ltype.LSubmessage? && (f.rule.Required? || f.rule.Optional? || f.rule.Singular?) && NoFixedCount(f.sub)
    requires (s.One? || s.Opt?) && s.cell.Msg? && |x + y| < 0x1_0000_0000
    requires Prefixed(one, x) && Prefixed(two, y) && Prefixed(both, x + y)
    requires Fields(f.sub, Progress(s.cell.slots, {}, None), x).Some?
    ensures var first := DecField(f, 2, s, one + rest);
      first.Some? ==> first.value.rest == rest
                      && (DecField(f, 2, first.value.value, two + rest).Some? ==>
                            DecField(f, 2, s, both + rest) == DecField(f, 2, first.value.value, two + rest))
  {
    hide DecMessage, Prefixed, Fields, NoFixedCount, ReadDelimited;
    PrefixedExactly(one, x);
    PrefixedExactly(two, y);
    PrefixedExactly(both, x + y);
    PbRoundTrip.DelimitedBack(x, rest);
    PbRoundTrip.DelimitedBack(y, rest);
    PbRoundTrip.DelimitedBack(x + y, rest);
    MessagesMerge(f.sub, s.cell.slots, x, y);
  }
}
