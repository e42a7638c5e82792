/** The iterator over the fields of a message (pb_common.c). */
module FieldIter {
  import opened Bytes
  import opened Descriptors
  import opened Decoding

  const PB_SIZE_MAX := 0xFFFF_FFFF

  /** The memory of a member: an array has arraySize elements. */
  function Size(f: Field): nat {
    if f.Array() then f.dataSize * f.arraySize else f.dataSize
  }

  /** Another member of the oneof before it: it does not move on (PB_DATAOFFSET_UNION). */
  predicate Shares(f: Field, g: Field) {
    f.rule.Oneof? && g.rule.Oneof? && g.dataOffset == PB_SIZE_MAX
  }

  /** How far into the struct the iterator is at field i. */
  function Offset(fields: seq<Field>, i: nat): nat
    requires i < |fields|
  {
    if i == 0 then fields[0].dataOffset
    else if Shares(fields[i - 1], fields[i]) then Offset(fields, i - 1)
    else Offset(fields, i - 1) + Size(fields[i - 1]) + fields[i].dataOffset
  }

  /** Where the iterator then looks for the has flag, the count or the union's tag. */
  function SizeOffset(fields: seq<Field>, i: nat): int
    requires i < |fields|
  {
    if i > 0 && Shares(fields[i - 1], fields[i]) then SizeOffset(fields, i - 1)
    else Offset(fields, i) + fields[i].sizeOffset
  }

  /** The offsets in the descriptor are those of a struct whose members are at these places: the generator's macros
      PB_DATAOFFSET_FIRST, PB_DATAOFFSET_OTHER and PB_DATAOFFSET_UNION. */
  predicate Describes(fields: seq<Field>, places: seq<nat>) {
    && |places| == |fields|
    && (fields != [] ==> fields[0].dataOffset == places[0])
    && forall i | 0 < i < |fields| :: Delta(fields, places, i)
  }

  predicate Delta(fields: seq<Field>, places: seq<nat>, i: nat)
    requires 0 < i < |fields| == |places|
  {
    if Shares(fields[i - 1], fields[i]) then
      places[i] == places[i - 1] && fields[i].sizeOffset == fields[i - 1].sizeOffset
    else fields[i].dataOffset == places[i] - places[i - 1] - Size(fields[i - 1])
  }

  /** At every field the iterator is at the member that the field describes. */
  lemma {:induction false} OffsetIsPlace(fields: seq<Field>, places: seq<nat>, i: nat)
    requires Describes(fields, places) && i < |fields|
    ensures Offset(fields, i) == places[i] && SizeOffset(fields, i) == places[i] + fields[i].sizeOffset
  {
    if i > 0 {
      assert Delta(fields, places, i);
      OffsetIsPlace(fields, places, i - 1);
    }
  }

  /** pb_field_iter_t. The terminator, which has tag 0, is not among the fields; only an empty descriptor's iterator is
      at it. */
  class FieldIter {
    const fields: seq<Field>
    var pos: nat
    var requiredFieldIndex: nat
    var pData: nat
    var pSize: int

    ghost predicate Valid()
      reads this
    {
      && (if fields == [] then pos == 0 else pos < |fields|)
      && requiredFieldIndex == RequiredCount(fields[..pos])
      && (fields != [] ==> pData == Offset(fields, pos) && pSize == SizeOffset(fields, pos))
    }

    /** pb_field_iter_begin. */
    constructor (fields: seq<Field>)
      ensures Valid() && this.fields == fields && pos == 0
    {
      this.fields := fields;
      pos, requiredFieldIndex := 0, 0;
      pData := if fields == [] then 0 else fields[0].dataOffset;
      pSize := if fields == [] then 0 else fields[0].dataOffset + fields[0].sizeOffset;
    }

    /** pb_field_iter_begin, for another round. */
    method Begin()
      modifies this
      ensures Valid() && pos == 0
    {
      pos, requiredFieldIndex := 0, 0;
      pData := if fields == [] then 0 else fields[0].dataOffset;
      pSize := if fields == [] then 0 else pData + fields[0].sizeOffset;
    }

    /** pb_field_iter_next: false at the end, where it begins again. */
    method Next() returns (more: bool)
      requires Valid()
      modifies this
      ensures Valid()
      ensures more == (old(pos) + 1 < |fields|) && pos == if more then old(pos) + 1 else 0
    {
      if fields == [] {
        return false;
      }
      if pos + 1 == |fields| {
        Begin();
        return false;
      }
      var prev := fields[pos];
      pos := pos + 1;
      assert fields[..pos][..pos - 1] == fields[..pos - 1];
      if Shares(prev, fields[pos]) {
        return true;
      }
      var prevSize := prev.dataSize;
      if prev.Array() {
        prevSize := prevSize * prev.arraySize;
      }
      if prev.rule.Required? {
        requiredFieldIndex := requiredFieldIndex + 1;
      }
      pData := pData + prevSize + fields[pos].dataOffset;
      pSize := pData + fields[pos].sizeOffset;
      more := true;
    }

    /** pb_field_iter_find: from wherever the iterator is, once around. At the terminator it finds tag 0. */
    method Find(tag: nat) returns (found: bool)
      requires Valid()
      modifies this
      ensures Valid()
      ensures found ==> if fields == [] then tag == 0 else fields[pos].tag == tag
      ensures !found ==> pos == old(pos) && (fields == [] ==> tag != 0) && forall f | f in fields :: f.tag != tag
    {
      if fields == [] {
        return tag == 0;
      }
      var start := pos;
      ghost var passed: nat := 0;
      while true
        invariant Valid() && passed < |fields|
        invariant pos == if start + passed < |fields| then start + passed else start + passed - |fields|
        invariant forall k | 0 <= k < |fields| && Passed(start, passed, |fields|, k) :: fields[k].tag != tag
        decreases |fields| - passed
      {
        if fields[pos].tag == tag {
          return true;
        }
        ghost var at := pos;
        var _ := Next();
        forall k | 0 <= k < |fields| && Passed(start, passed + 1, |fields|, k) ensures fields[k].tag != tag {
          assert k == at || Passed(start, passed, |fields|, k);
        }
        if pos == start {
          ghost var all := passed + 1;
          assert forall k | 0 <= k < |fields| :: Passed(start, all, |fields|, k);
          return false;
        }
        passed := passed + 1;
      }
    }
  }

  /** k is one of the first n places from start around a circle. */
  ghost predicate Passed(start: nat, n: nat, around: nat, k: nat) {
    start <= k < start + n || k + around < start + n
  }
}
