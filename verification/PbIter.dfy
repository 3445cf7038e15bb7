/** pb_field_iter_t: the cyclic iterator over a field table. */
module PbIter {
  import opened Words
  import opened PbVarint
  import opened PbMessage

  class FieldIter {
    const fields: seq<Field>
    var pos: nat
    var slot: nat           // the struct member pData and pSize point into
    var requiredIndex: nat

    /** The two derived members are functions of the position, wherever the iterator started
        and however often it wrapped around. */
    ghost predicate Valid()
      reads this
    {
      if fields == [] then pos == 0 && slot == 0 && requiredIndex == 0
      else pos < |fields| && slot == SlotOf(fields, pos) && requiredIndex == RequiredBefore(fields, pos)
    }

    /** pb_field_iter_begin. */
    constructor (fields: seq<Field>)
      ensures Valid() && this.fields == fields && pos == 0
    {
      this.fields := fields;
      pos, slot, requiredIndex := 0, 0, 0;
    }

    /** pb_field_iter_next: false when it wraps around (or the table is empty). */
    method Next() returns (more: bool)
      requires Valid()
      modifies this
      ensures Valid()
      ensures more == (old(pos) + 1 < |fields|)
      ensures pos == if more then old(pos) + 1 else 0
    {
      if fields == [] { return false; }
      var prev := fields[pos];
      pos := pos + 1;
      if pos == |fields| {
        pos, slot, requiredIndex := 0, 0, 0;
        return false;
      }
      if prev.rule.Oneof? && fields[pos].rule.Oneof? && fields[pos].rule.sameUnion {
        return true;
      }
      if prev.rule.Required? {
        requiredIndex := requiredIndex + 1;
      }
      slot := slot + 1;
      return true;
    }

    /** pb_field_iter_find: searches the whole table once, from the current position on. */
    method Find(tag: nat) returns (found: bool)
      requires Valid()
      requires forall i, j :: 0 <= i < j < |fields| ==> fields[i].tag != fields[j].tag
      modifies this
      ensures Valid()
      ensures fields == [] ==> found == (tag == 0)
      ensures fields != [] ==> found == (PbMessage.Find(fields, tag) < |fields|)
      ensures found && fields != [] ==> pos == PbMessage.Find(fields, tag)
      ensures !found ==> pos == old(pos)
    {
      var start := pos;
      if fields == [] { return tag == 0; }
      ghost var steps := 0;
      while true
        invariant Valid() && steps < |fields|
        invariant pos == (if start + steps < |fields| then start + steps else start + steps - |fields|)
        invariant forall j :: start <= j < start + steps && j < |fields| ==> fields[j].tag != tag
        invariant forall j :: 0 <= j < start + steps - |fields| ==> fields[j].tag != tag
        decreases |fields| - steps
      {
        if fields[pos].tag == tag {
          return true;
        }
        var more := Next();
        steps := steps + 1;
        if pos == start {
          return false;
        }
      }
    }
  }
}
