/** When the normal form the receiver gets is the sender's message.

    A proto3 submessage is left out when pb_check_proto3_default_value finds every field at
    its default.  For a fixed-count array that test reads a pb_size_t of array data as if it
    were a count, so an array that begins with four zero bytes passes for empty and is not
    sent.  The receiver's defaults write four zero bytes at the same place, and leave the rest
    of the array as it was in memory.  These lemmas say exactly when that loses something. */
module PbFidelity {
  import opened Words
  import opened PbVarint
  import opened PbMessage
  import opened PbRoundTrip

  // ------------------------------------------------------------- observable equality

  /** Equal as far as the message's own presence information lets a reader see. */
  ghost predicate SameCell(f: Field, a: Cell, b: Cell)
    decreases f, 0
  {
    if f.ltype.LSubmessage? then a.Msg? && b.Msg? && Same(f.sub, a.slots, b.slots) else a == b
  }

  ghost predicate SameItems(f: Field, a: seq<Cell>, b: seq<Cell>)
    decreases f, 1
  {
    |a| == |b| && forall i :: 0 <= i < |a| ==> SameCell(f, a[i], b[i])
  }

  ghost predicate SameSlot(f: Field, a: Slot, b: Slot)
    decreases f, 2
  {
    match f.rule
    case Required => a.One? && b.One? && SameCell(f, a.cell, b.cell)
    case Singular => a.One? && b.One? && SameCell(f, a.cell, b.cell)
    case Optional => a.Opt? && b.Opt? && a.has == b.has && (a.has ==> SameCell(f, a.cell, b.cell))
    case Repeated => a.Rep? && b.Rep? && SameItems(f, a.items, b.items)
    case FixedCount => a.Fix? && b.Fix? && (SameItems(f, a.items, b.items) || SameMemory(f, a, b))
    case Oneof(_) =>
      a.Uni? && b.Uni? && (a.which == f.tag <==> b.which == f.tag)
      && (a.which == f.tag ==> a.member.Some? && b.member.Some? && SameCell(f, a.member.value, b.member.value))
  }

  /** An array of which nothing was received is the sender's if all of its bytes are among those
      that the defaults wrote, and these are equal; bytes further back are not known. */
  ghost predicate SameMemory(f: Field, a: Slot, b: Slot)
    requires a.Fix? && b.Fix?
  {
    b.items == [] && ArrayBytes(f) <= |b.front| == |a.front| && a.front[..ArrayBytes(f)] == b.front[..ArrayBytes(f)]
  }

  ghost predicate Same(fields: seq<Field>, a: seq<Slot>, b: seq<Slot>)
    decreases fields, 3
  {
    |a| == |b| == SlotCount(fields) &&
    forall k :: 0 <= k < |fields| ==>
      SlotOf(fields, k) < |a| && SameSlot(fields[k], a[SlotOf(fields, k)], b[SlotOf(fields, k)])
  }

  // ------------------------------------------------------------- what can be lost

  /** A fixed-count array longer than a pb_size_t, in this message or in a chain of proto3
      submessages. */
  ghost predicate HoldsFixed(fields: seq<Field>)
  {
    exists k :: 0 <= k < |fields| && FieldHoldsFixed(fields[k])
  }

  ghost predicate FieldHoldsFixed(f: Field)
  {
    (f.rule.FixedCount? && ArrayBytes(f) > SIZE_T) || (f.rule.Singular? && f.ltype.LSubmessage? && HoldsFixed(f.sub))
  }

  ghost predicate LosesCell(f: Field, c: Cell)
    decreases f, 0
  {
    f.ltype.LSubmessage? && c.Msg? && Loses(f.sub, c.slots)
  }

  ghost predicate LosesSlot(f: Field, s: Slot)
    decreases f, 1
  {
    if !Emitted(f, s) then f.rule.Singular? && f.ltype.LSubmessage? && HoldsFixed(f.sub)
    else if s.Rep? || s.Fix? then exists i :: 0 <= i < |s.items| && LosesCell(f, s.items[i])
    else LosesCell(f, ItemOf(s))
  }

  /** Somewhere in the message a submessage that holds a fixed-count array longer than a pb_size_t
      is left out. */
  ghost predicate Loses(fields: seq<Field>, slots: seq<Slot>)
    decreases fields, 2
  {
    exists k :: 0 <= k < |fields| && SlotOf(fields, k) < |slots| && LosesSlot(fields[k], slots[SlotOf(fields, k)])
  }

  // ------------------------------------------------------------- the normal form, field by field

  /** What the normal form of the first n fields holds for field k. */
  ghost predicate NormHolds(f: Field, s: Slot, r: Slot, done: bool)
  {
    if f.rule.Oneof? then
      r.Uni? && (if done && s.Uni? && s.which == f.tag then r == NormField(f, s) else r.which != f.tag)
    else r == if done && Emitted(f, s) then NormField(f, s) else DefaultSlot(f)
  }

  lemma {:induction false} NormAt(fields: seq<Field>, slots: seq<Slot>, k: nat, n: nat)
    requires TableOk(fields) && SlotsOk(fields, slots) && k < |fields| && n <= |fields|
    ensures SlotOf(fields, k) < |slots| == SlotCount(fields)
    ensures NormHolds(fields[k], slots[SlotOf(fields, k)], NormUpTo(fields, slots, n)[SlotOf(fields, k)], n > k)
    decreases n
  {
    hide DefaultsUpTo, SlotOf, NormField, IsDefault, FieldOk;
    SlotOfMonotone(fields, k, k);
    if n == 0 {
      DefaultsAt(fields, |fields|, k);
    } else {
      NormAt(fields, slots, k, n - 1);
      var j := n - 1;
      SlotOfMonotone(fields, j, j);
      assert SlotOk(fields[j], slots[SlotOf(fields, j)]);
      if j != k && SlotOf(fields, j) == SlotOf(fields, k) {
        if j < k { SlotOfMonotone(fields, j, k); } else { SlotOfMonotone(fields, k, j); }
        UnionMember(fields[j], slots[SlotOf(fields, j)]);
      } else if j == k {
        assert SlotOk(fields[k], slots[SlotOf(fields, k)]);
        UnionEmits(fields[k], slots[SlotOf(fields, k)]);
      }
    }
  }

  lemma {:induction false} UnionMember(f: Field, s: Slot)
    requires f.rule.Oneof? && SlotOk(f, s)
    ensures Emitted(f, s) <==> s.which == f.tag
    ensures NormField(f, s).Uni? && NormField(f, s).which == f.tag
  {
  }

  lemma {:induction false} UnionEmits(f: Field, s: Slot)
    requires SlotOk(f, s)
    ensures f.rule.Oneof? ==> (Emitted(f, s) <==> s.which == f.tag) && NormField(f, s).Uni?
  {
  }

  // ------------------------------------------------------------- submessages that are left out

  /** One field of a submessage that passes for default. */
  lemma {:induction false} DefaultSlotSame(f: Field, s: Slot)
    requires FieldOk(f) && f.tag > 0 && SlotOk(f, s) && IsDefault(f, s)
    ensures var d := if f.rule.Oneof? then Uni(0, None) else DefaultSlot(f);
      SameSlot(f, s, d) <==> !FieldHoldsFixed(f)
    decreases f, 0
  {
    hide Defaults, HoldsFixed, AllDefault, SlotsOk, TableOk;
    if f.rule.Singular? {
      if f.ltype.LSubmessage? {
        assert TableOk(f.sub);
        DefaultSame(f.sub, s.cell.slots);
      } else if f.ltype.LFixedBytes? {
        assert s.cell.b == Zeros(f.dataSize);
      }
    }
  }

  /** A submessage that passes for default equals the default unless it holds a fixed-count array
      longer than a pb_size_t. */
  lemma {:induction false} DefaultSame(fields: seq<Field>, slots: seq<Slot>)
    requires TableOk(fields) && SlotsOk(fields, slots) && AllDefault(fields, slots, 0)
    ensures Same(fields, slots, Defaults(fields)) <==> !HoldsFixed(fields)
    decreases fields, 1
  {
    hide SlotOf, SameSlot, IsDefault, DefaultsUpTo, FieldHoldsFixed, DefaultSlot, FieldOk;
    forall k | 0 <= k < |fields|
      ensures SlotOf(fields, k) < |slots|
      ensures SameSlot(fields[k], slots[SlotOf(fields, k)], Defaults(fields)[SlotOf(fields, k)]) <==> !FieldHoldsFixed(fields[k])
    {
      DefaultsAt(fields, |fields|, k);
      AllDefaultAt(fields, slots, 0, k);
      assert SlotOk(fields[k], slots[SlotOf(fields, k)]) && FieldOk(fields[k]);
      DefaultSlotSame(fields[k], slots[SlotOf(fields, k)]);
    }
  }

  lemma {:induction false} AllDefaultAt(fields: seq<Field>, slots: seq<Slot>, i: nat, k: nat)
    requires i <= k < |fields| && AllDefault(fields, slots, i)
    ensures SlotOf(fields, k) < |slots| && IsDefault(fields[k], slots[SlotOf(fields, k)])
    decreases k - i
  {
    hide SlotOf, IsDefault;
    if i < k { AllDefaultAt(fields, slots, i + 1, k); }
  }

  // ------------------------------------------------------------- the theorem

  lemma {:induction false} NormItemsAt(f: Field, items: seq<Cell>, i: nat)
    requires i < |items|
    ensures NormItems(f, items)[i] == NormCell(f, items[i])
    decreases |items|
  {
    if i < |items| - 1 { NormItemsAt(f, items[..|items| - 1], i); }
  }

  lemma {:induction false} CellSame(f: Field, c: Cell)
    requires FieldOk(f) && CellOk(f, c)
    ensures SameCell(f, c, NormCell(f, c)) <==> !LosesCell(f, c)
    decreases f, 0
  {
    hide Norm, NormUpTo, Same, Loses, SlotsOk, TableOk;
    if f.ltype.LSubmessage? {
      assert TableOk(f.sub);
      MessageSame(f.sub, c.slots);
      assert Norm(f.sub, c.slots) == NormUpTo(f.sub, c.slots, |f.sub|) by { NormIs(f.sub, c.slots); }
    }
  }

  lemma {:induction false} NormIs(fields: seq<Field>, slots: seq<Slot>)
    ensures Norm(fields, slots) == NormUpTo(fields, slots, |fields|)
  {
  }

  lemma {:induction false} ItemsSame(f: Field, items: seq<Cell>)
    requires FieldOk(f) && ItemsOk(f, items)
    ensures SameItems(f, items, NormItems(f, items)) <==> !(exists i :: 0 <= i < |items| && LosesCell(f, items[i]))
    decreases f, 1
  {
    hide SameCell, LosesCell, NormCell, FieldOk, CellOk, NormItems;
    forall i | 0 <= i < |items|
      ensures SameCell(f, items[i], NormItems(f, items)[i]) <==> !LosesCell(f, items[i])
    {
      NormItemsAt(f, items, i);
      CellSame(f, items[i]);
    }
  }

  lemma {:induction false} SlotSame(f: Field, s: Slot, r: Slot)
    requires FieldOk(f) && f.tag > 0 && SlotOk(f, s) && NormHolds(f, s, r, true)
    ensures SameSlot(f, s, r) <==> !LosesSlot(f, s)
    decreases f, 2
  {
    hide CellOk, SameCell, LosesCell, NormItems, DefaultCell, HoldsFixed, NormCell, FieldOk;
    if f.rule.Repeated? || f.rule.FixedCount? {
      ItemsSame(f, s.items);
      EmptySame(f, s);
    } else if Emitted(f, s) {
      CellSame(f, ItemOf(s));
    } else if f.rule.Singular? {
      DefaultSlotSame(f, s);
    }
  }

  lemma {:induction false} EmptySame(f: Field, s: Slot)
    requires (f.rule.Repeated? && s.Rep?) || (f.rule.FixedCount? && s.Fix?)
    ensures s.items == [] ==> SameSlot(f, s, DefaultSlot(f)) && DefaultSlot(f).items == []
    ensures NormField(f, s).items == NormItems(f, s.items) && (s.items != [] ==> NormField(f, s).items != [])
  {
  }

  /** The normal form is the sender's message, for every reader, exactly when no submessage
      holding a fixed-count array longer than a pb_size_t was left out. */
  lemma {:induction false} MessageSame(fields: seq<Field>, slots: seq<Slot>)
    requires TableOk(fields) && SlotsOk(fields, slots)
    ensures Same(fields, slots, Norm(fields, slots)) <==> !Loses(fields, slots)
    decreases fields, 3
  {
    hide SlotOf, SameSlot, LosesSlot, NormUpTo, NormHolds, FieldOk;
    forall k | 0 <= k < |fields|
      ensures SlotOf(fields, k) < |slots|
      ensures SameSlot(fields[k], slots[SlotOf(fields, k)], Norm(fields, slots)[SlotOf(fields, k)])
         <==> !LosesSlot(fields[k], slots[SlotOf(fields, k)])
    {
      NormAt(fields, slots, k, |fields|);
      assert SlotOk(fields[k], slots[SlotOf(fields, k)]) && FieldOk(fields[k]);
      SlotSame(fields[k], slots[SlotOf(fields, k)], Norm(fields, slots)[SlotOf(fields, k)]);
    }
  }

  /** The round trip, exactly: the receiver accepts the encoded message, has no byte left over
      and reads what the sender stored, if and only if every written string has its NUL and no
      submessage holding a fixed-count array longer than a pb_size_t was left out. */
  lemma {:induction false} RoundTrip(fields: seq<Field>, slots: seq<Slot>)
    requires TableOk(fields) && SlotsOk(fields, slots)
    requires Encode(fields, slots).Some? && |Encode(fields, slots).value| < TWO32
    ensures var r := Decode(fields, Encode(fields, slots).value);
      (r.Some? && r.value.rest == [] && Same(fields, slots, r.value.value))
      <==> (TermFrom(fields, slots, 0) && !Loses(fields, slots))
  {
    hide *;
    MessageBack(fields, slots);
    MessageSame(fields, slots);
  }

  /** The examples below: an array of two integers of the given size, and a proto3 submessage
      around it. */
  function Pair(size: nat): Field { Field(1, FixedCount, LUvarint, size, 2, [], None) }
  function Around(size: nat): Field { Field(1, Singular, LSubmessage, 2 * size, 0, [Pair(size)], None) }

  const LOST: Slot := Fix([Num(0), Num(7)], ZERO_FRONT)
  const KEPT: Slot := Fix([Num(0), Num(0)], ZERO_FRONT)

  lemma {:induction false} PairIsTyped(size: nat, s: Slot)
    requires SlotOk(Pair(size), s)
    ensures TableOk([Around(size)]) && SlotsOk([Around(size)], [One(Msg([s]))])
  {
    hide FrontOk;
    assert TableOk([]) && FieldOk(Pair(size));
    assert TableOk([Pair(size)]);
    assert FieldOk(Around(size));
    assert SlotOf([Pair(size)], 0) == 0 && SlotOf([Around(size)], 0) == 0;
    assert SlotsOk([Pair(size)], [s]);
    assert SlotOk(Around(size), One(Msg([s])));
  }

  lemma {:induction false} PairIsDefault(size: nat, s: Slot)
    requires s.Fix? && s.front == ZERO_FRONT
    ensures Encode([Around(size)], [One(Msg([s]))]) == Some([])
  {
    assert SlotOf([Pair(size)], 0) == 0;
    assert IsDefault(Pair(size), s) && AllDefault([Pair(size)], [s], 1);
    assert AllDefault([Pair(size)], [s], 0);
    var fields, slots := [Around(size)], [One(Msg([s]))];
    assert SlotOf(fields, 0) == 0;
    assert EncField(Around(size), slots[0]) == Some([]);
    assert EncFields(fields, slots, 1) == Some([]);
    assert EncFields(fields, slots, 0) == Then(EncField(fields[0], slots[0]), EncFields(fields, slots, 1));
    var e: seq<Byte> := [];
    assert e + e == e;
  }

  lemma {:induction false} ZeroBytes(n: nat, j: nat)
    requires j < n
    ensures LittleEndian(0, n)[j] == 0
    decreases n
  {
    if j > 0 { ZeroBytes(n - 1, j - 1); }
  }

  /** A message that does get lost: the 32-bit integers 0 and 7, which begin with four zero
      bytes.  The defaults of the receiver do not write the 7. */
  lemma {:induction false} LostArray()
    ensures TableOk([Around(4)]) && SlotsOk([Around(4)], [One(Msg([LOST]))])
    ensures Encode([Around(4)], [One(Msg([LOST]))]) == Some([])
    ensures !Same([Around(4)], [One(Msg([LOST]))], Norm([Around(4)], [One(Msg([LOST]))]))
  {
    hide Norm, Same, IsDefault, TableOk, SlotsOk, Encode, LittleEndian;
    forall j | 0 <= j < 4 ensures Stored(Pair(4), Num(0), j) == Some(0) { ZeroBytes(4, j); }
    PairIsTyped(4, LOST);
    PairIsDefault(4, LOST);
    var fields, slots := [Around(4)], [One(Msg([LOST]))];
    assert SlotOf(fields, 0) == 0;
    OmittedPair(4, LOST);
    assert FieldHoldsFixed([Pair(4)][0]);
    assert LosesSlot(fields[0], slots[SlotOf(fields, 0)]);
    MessageSame(fields, slots);
  }

  lemma {:induction false} OmittedPair(size: nat, s: Slot)
    requires s.Fix? && s.front == ZERO_FRONT
    ensures !Emitted(Around(size), One(Msg([s])))
  {
    assert SlotOf([Pair(size)], 0) == 0;
    assert IsDefault(Pair(size), s) && AllDefault([Pair(size)], [s], 1);
    assert AllDefault([Pair(size)], [s], 0);
  }

  /** One that is left out and comes back all the same: two 16-bit zeros fill a pb_size_t, which
      is what the defaults clear. */
  lemma {:induction false} KeptArray()
    ensures TableOk([Around(2)]) && SlotsOk([Around(2)], [One(Msg([KEPT]))])
    ensures Encode([Around(2)], [One(Msg([KEPT]))]) == Some([])
    ensures Same([Around(2)], [One(Msg([KEPT]))], Norm([Around(2)], [One(Msg([KEPT]))]))
  {
    hide Norm, Same, IsDefault, TableOk, SlotsOk, Encode, LittleEndian;
    forall j | 0 <= j < 2 ensures Stored(Pair(2), Num(0), j) == Some(0) { ZeroBytes(2, j); }
    PairIsTyped(2, KEPT);
    PairIsDefault(2, KEPT);
    var fields, slots := [Around(2)], [One(Msg([KEPT]))];
    assert SlotOf(fields, 0) == 0;
    OmittedPair(2, KEPT);
    assert !FieldHoldsFixed(Pair(2));
    assert !HoldsFixed([Pair(2)]);
    assert !LosesSlot(fields[0], slots[0]);
    MessageSame(fields, slots);
  }
}
