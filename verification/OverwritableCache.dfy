/** The bounded cache of discovered contacts: a push on a full cache drops the stalest entry. */
module OverwritableCache {
  import opened Common

  /** What a push does to the entries, listed from the stalest to the freshest. */
  function Pushed<T>(entries: seq<T>, value: T, capacity: nat): (r: seq<T>)
    requires 0 < capacity
  {
    if |entries| < capacity then entries + [value] else entries[1..] + [value]
  }

  function PushedAll<T>(entries: seq<T>, values: seq<T>, capacity: nat): (r: seq<T>)
    requires 0 < capacity
    decreases |values|
  {
    if values == [] then entries
    else PushedAll(Pushed(entries, values[0], capacity), values[1..], capacity)
  }

  /** After any pushes the cache holds exactly the freshest values, in order. */
  lemma {:induction false} PushedAllKeepsFreshest<T>(entries: seq<T>, values: seq<T>, capacity: nat)
    requires 0 < capacity && |entries| <= capacity
    ensures var all := entries + values;
            PushedAll(entries, values, capacity) == all[|all| - Min(|all|, capacity)..]
    decreases |values|
  {
    if values == [] {
      assert entries + values == entries;
    } else {
      var next := Pushed(entries, values[0], capacity);
      PushedAllKeepsFreshest(next, values[1..], capacity);
      var dropped := if |entries| < capacity then [] else [entries[0]];
      assert dropped + (next + values[1..]) == entries + values;
    }
  }

  class Cache<T(0)> {
    const capacity: nat
    const cells: array<T>
    var write: nat
    var read: nat
    var size: nat

    ghost predicate Valid()
      reads this
    {
      && 0 < capacity == cells.Length
      && read < capacity && size <= capacity
      && write == Wrap(read + size, capacity)
    }

    /** The live entries from the stalest to the freshest. */
    ghost function Entries(): (entries: seq<T>)
      requires Valid()
      reads this, cells
    {
      Window(cells[..], read, size)
    }

    constructor (capacity: nat)
      requires 0 < capacity
      ensures Valid() && this.capacity == capacity && fresh(cells)
      ensures Entries() == []
    {
      this.capacity := capacity;
      cells := new T[capacity];
      write, read, size := 0, 0, 0;
    }

    function PlusMask(num: nat): nat
    {
      if num + 1 == capacity then 0 else num + 1
    }

    function MinusMask(num: nat): nat
      requires 0 < capacity
    {
      if num == 0 then capacity - 1 else num - 1
    }

    method Push(value: T)
      requires Valid()
      modifies this, cells
      ensures Valid()
      ensures Entries() == Pushed(old(Entries()), value, capacity)
    {
      cells[write] := value;
      write := PlusMask(write);
      if size < capacity {
        size := size + 1;
      } else {
        read := PlusMask(read);
      }
    }

    method StalePop() returns (popped: Option<T>)
      requires Valid()
      modifies this
      ensures Valid()
      ensures old(Entries()) == [] ==> popped == None && Entries() == []
      ensures old(Entries()) != [] ==> popped.Some? && old(Entries()) == [popped.value] + Entries()
    {
      if IsEmpty() {
        return None;
      }
      popped := Some(cells[read]);
      size := size - 1;
      read := PlusMask(read);
    }

    method FreshPop() returns (popped: Option<T>)
      requires Valid()
      modifies this
      ensures Valid()
      ensures old(Entries()) == [] ==> popped == None && Entries() == []
      ensures old(Entries()) != [] ==> popped.Some? && old(Entries()) == Entries() + [popped.value]
    {
      if IsEmpty() {
        return None;
      }
      write := MinusMask(write);
      popped := Some(cells[write]);
      size := size - 1;
    }

    predicate IsEmpty()
      reads this
    {
      size == 0
    }
  }
}
