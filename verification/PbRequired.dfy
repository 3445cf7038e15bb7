/** The required-field check reports exactly the required fields that never appeared. */
module PbRequired {
  import opened Words
  import opened PbVarint
  import opened PbMessage

  /** The indices of the known fields that the decoding loop meets, in wire order. */
  function Met(fields: seq<Field>, p: Progress, bs: seq<Byte>): seq<nat>
    decreases |bs|
  {
    if bs == [] then []
    else
      var t := ReadVarint32(bs);
      if t.None? || t.value.value == 0 || (fields == [] && t.value.value / 8 == 0) then []
      else
        var k := Find(fields, t.value.value / 8);
        if k == |fields| then
          var rest := Skip(t.value.value % 8, t.value.rest);
          if rest.None? then [] else Met(fields, p, rest.value)
        else
          var r := DecOne(fields, k, t.value.value % 8, p, t.value.rest);
          if r.None? then [] else [k] + Met(fields, r.value.value, r.value.rest)
  }

  /** Field k is one of the required fields that the bitset has room for. */
  predicate Checked(fields: seq<Field>, k: nat)
    requires k < |fields|
  {
    fields[k].rule.Required? && RequiredBefore(fields, k) < 64
  }

  /** Two required fields never share a bit. */
  lemma {:induction false} BitsDistinct(fields: seq<Field>, j: nat, k: nat)
    requires j < k < |fields| && fields[j].rule.Required?
    ensures RequiredBefore(fields, j) < RequiredBefore(fields, k)
    decreases k
  {
    if j < k - 1 { BitsDistinct(fields, j, k - 1); }
  }

  lemma {:induction false} SameBit(fields: seq<Field>, j: nat, k: nat)
    requires j < |fields| && k < |fields| && fields[j].rule.Required? && fields[k].rule.Required?
    requires RequiredBefore(fields, j) == RequiredBefore(fields, k)
    ensures j == k
  {
    hide RequiredBefore;
    if j < k { BitsDistinct(fields, j, k); }
    if k < j { BitsDistinct(fields, k, j); }
  }

  /** Decoding field k sets field j's bit only when j is k and k is checked. */
  lemma {:induction false} OneMarks(fields: seq<Field>, j: nat, k: nat, wireType: nat, p: Progress, bs: seq<Byte>)
    requires j < |fields| && k < |fields| && Checked(fields, j)
    requires DecOne(fields, k, wireType, p, bs).Some?
    ensures RequiredBefore(fields, j) in DecOne(fields, k, wireType, p, bs).value.value.seen
       <==> RequiredBefore(fields, j) in p.seen || j == k
  {
    hide DecField, SlotOf, RequiredBefore, FixedDone;
    if Checked(fields, k) && RequiredBefore(fields, j) == RequiredBefore(fields, k) { SameBit(fields, j, k); }
  }

  lemma {:induction false} LoopMarks(fields: seq<Field>, j: nat, p: Progress, bs: seq<Byte>)
    requires j < |fields| && Checked(fields, j) && DecLoop(fields, p, bs).Some?
    ensures RequiredBefore(fields, j) in DecLoop(fields, p, bs).value.value.seen
       <==> RequiredBefore(fields, j) in p.seen || j in Met(fields, p, bs)
    decreases |bs|
  {
    hide DecOne, ReadVarint32, Skip, Find, RequiredBefore, Checked;
    if bs != [] && ReadVarint32(bs).value.value != 0 {
      var t := ReadVarint32(bs).value;
      var k := Find(fields, t.value / 8);
      if k == |fields| {
        LoopMarks(fields, j, p, Skip(t.value % 8, t.rest).value);
      } else {
        var r := DecOne(fields, k, t.value % 8, p, t.rest).value;
        OneMarks(fields, j, k, t.value % 8, p, t.rest);
        LoopMarks(fields, j, r.value, r.rest);
      }
    }
  }

  /** When every field of the input decodes and no fixed-count array is short, decoding is
      refused exactly when one of the first 64 required fields never appeared. */
  lemma {:induction false} RequiredCheckExact(fields: seq<Field>, slots: seq<Slot>, bs: seq<Byte>)
    requires DecLoop(fields, Progress(slots, {}, None), bs).Some?
    requires FixedDone(fields, DecLoop(fields, Progress(slots, {}, None), bs).value.value)
    ensures DecMessage(fields, slots, bs).None?
       <==> exists j :: 0 <= j < |fields| && Checked(fields, j) && j !in Met(fields, Progress(slots, {}, None), bs)
  {
    hide DecLoop, FixedDone, Met, RequiredBefore, RequiredSeenFrom;
    var p := Progress(slots, {}, None);
    var seen := DecLoop(fields, p, bs).value.value.seen;
    AllRequiredSeen(fields, seen, 0);
    assert RequiredSeenFrom(fields, seen, 0)
       <==> forall j :: 0 <= j < |fields| && Checked(fields, j) ==> RequiredBefore(fields, j) in seen;
    forall j | 0 <= j < |fields| && Checked(fields, j)
      ensures RequiredBefore(fields, j) in seen <==> j in Met(fields, p, bs)
    {
      LoopMarks(fields, j, p, bs);
    }
  }
}
