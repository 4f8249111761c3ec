/**
 The doubling arrays that hold the spans of a segment, the tags of a span and
 the data of a log.  The three copies of this code in the repository
 (src/sky_core_segment.c:58-77, src/sky_core_span.c:86-97 and
 src/sky_core_log.c:38-53) share the check, the doubling and the write.
 */
module GrowableArray {

  class GrowableArray<T(0)> {
    const initial: nat
    var slots: array<T>
    var size: nat
    // How many slots the reallocations have copied so far.
    ghost var moved: nat

    ghost predicate Valid()
      reads this, slots
    {
      && 2 <= initial
      && size < slots.Length
      && slots.Length == initial + moved
      && (moved == 0 || slots.Length <= 2 * size)
    }

    ghost function Contents(): seq<T>
      reads this, slots
      requires Valid()
    {
      slots[..size]
    }

    constructor (initial: nat)
      requires 2 <= initial
      ensures Valid() && fresh(slots)
      ensures this.initial == slots.Length == initial && Contents() == [] && moved == 0
    {
      this.initial, size, moved := initial, 0, 0;
      slots := new T[initial];
    }

    /**
     Appends the item, doubling the array first when only one slot is free.
     Without memory for the larger array nothing changes.
     */
    method Add(item: T, memory: bool) returns (added: bool)
      requires Valid()
      modifies this, slots
      ensures Valid() && (slots == old(slots) || fresh(slots))
      ensures added <==> memory || old(size) + 1 < old(slots.Length)
      ensures slots.Length
           == if memory && old(size) + 1 == old(slots.Length) then 2 * old(slots.Length) else old(slots.Length)
      ensures Contents() == if added then old(Contents()) + [item] else old(Contents())
      ensures moved <= 2 * size
    {
      ghost var contents := Contents();
      if size == slots.Length - 1 {
        if !memory {
          return false;
        }
        var more := new T[slots.Length * 2];
        for i := 0 to slots.Length
          invariant Valid() && Contents() == contents && slots == old(slots) && size == old(size)
          invariant more[..i] == slots[..i]
        {
          more[i] := slots[i];
        }
        assert more[..size] == contents by {
          assert more[..size] == more[..slots.Length][..size];
        }
        moved := moved + slots.Length;
        slots := more;
      }
      assert slots[..size] == contents;
      slots[size] := item;
      size := size + 1;
      return true;
    }

    /** Any run of calls, with memory throughout. */
    method AddAll(items: seq<T>)
      requires Valid()
      modifies this, slots
      ensures Valid() && (slots == old(slots) || fresh(slots))
      ensures Contents() == old(Contents()) + items
      ensures moved <= 2 * size
    {
      for k := 0 to |items|
        invariant Valid() && (slots == old(slots) || fresh(slots))
        invariant Contents() == old(Contents()) + items[..k]
      {
        var added := Add(items[k], true);
        assert items[..k + 1] == items[..k] + [items[k]];
      }
      assert items[..|items|] == items;
    }
  }
}
