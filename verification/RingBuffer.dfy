/** A first-in-first-out list of fixed capacity, kept in a ring with 8-bit indices. */
module RingBuffer {
  newtype uint8 = x: int | 0 <= x < 0x100

  /** A conversion to 8 bits, which truncates. */
  function ToUint8(n: nat): uint8 {
    (n % 0x100) as uint8
  }

  /** The last n items, or all if there are fewer. */
  function Last<T>(s: seq<T>, n: nat): (r: seq<T>) {
    if |s| <= n then s else s[|s| - n..]
  }

  lemma Unfilled<T>(list: seq<T>, history: seq<T>, line: T, n: nat)
    requires |list| < n && list[0..] + list[..0] == Last(history, n)
    ensures (list + [line])[0..] + (list + [line])[..0] == Last(history + [line], n)
  {
    assert list[0..] + list[..0] == list;
  }

  /** Overwriting the oldest item and moving the index past it drops the oldest and appends the new one. */
  lemma Overwritten<T>(list: seq<T>, i: nat, line: T)
    requires i < |list|
    ensures var l := list[i := line]; l[i + 1..] + l[..i + 1] == (list[i..] + list[..i])[1..] + [line]
  {
    var l := list[i := line];
    assert l[i + 1..] == list[i + 1..] && l[..i + 1] == list[..i] + [line];
    assert (list[i..] + list[..i])[1..] == list[i + 1..] + list[..i];
  }

  lemma LastNext<T>(history: seq<T>, line: T, n: nat)
    requires |Last(history, n)| == n > 0
    ensures Last(history + [line], n) == Last(history, n)[1..] + [line]
  {
  }

  class Buffer<T> {
    var list: seq<T>
    const capacity: uint8
    var index: uint8
    ghost var history: seq<T>    // the items inserted since the last flush

    /** The ring, read from its index on, is the last `capacity` items inserted. */
    ghost predicate Valid()
      reads this
    {
      && capacity >= 1
      && index as int <= |list| <= capacity as int
      && (|list| < capacity as int ==> index == 0)
      && list[index as int..] + list[..index as int] == Last(history, capacity as int)
    }

    constructor (capacity: uint8)
      requires capacity >= 1
      ensures Valid() && history == [] && this.capacity == capacity
    {
      this.capacity := capacity;
      list, index, history := [], 0, [];
    }

    method Insert(line: T)
      requires Valid()
      modifies this
      ensures Valid() && history == old(history) + [line]
    {
      hide Last;
      ghost var ring := list[index as int..] + list[..index as int];
      history := history + [line];
      if ToUint8(|list|) < capacity {
        list := list + [line];
        Unfilled(old(list), old(history), line, capacity as int);
      } else {
        if index == ToUint8(|list|) {
          index := 0;
        }
        assert list[index as int..] + list[..index as int] == ring;
        Overwritten(list, index as int, line);
        LastNext(old(history), line, capacity as int);
        list := list[index as int := line];
        index := index + 1;
      }
    }

    method Size() returns (n: uint8)
      requires Valid()
      ensures n as int == |Last(history, capacity as int)|
    {
      n := ToUint8(|list|);
      assert |list[index as int..] + list[..index as int]| == |list|;
    }

    method Collect() returns (items: seq<T>)
      requires Valid()
      ensures items == Last(history, capacity as int)
    {
      items := list[index as int..] + list[..index as int];
    }

    method Flush()
      requires Valid()
      modifies this
      ensures Valid() && history == []
    {
      list, index, history := [], 0, [];
    }
  }
}
