/** The fixed pool of connection slots. A released slot comes back under the next generation. */
module SlotPool {
  import opened Common

  datatype Slot<T> = Slot(value: T, generation: nat)

  datatype Pool<T> = Pool(slots: seq<Slot<T>>, available: seq<nat>, occupied: set<nat>)

  /** Every slot is either occupied or on the free list exactly once. */
  ghost predicate Valid<T>(p: Pool<T>) {
    && (forall i :: i in p.occupied ==> i < |p.slots| && i !in p.available)
    && (forall i :: 0 <= i < |p.slots| && i !in p.occupied ==> i in p.available)
    && (forall k :: 0 <= k < |p.available| ==> p.available[k] < |p.slots|)
    && Distinct(p.available)
  }

  function NewPool<T>(n: nat, blank: T): Pool<T> {
    Pool(seq(n, _ => Slot(blank, 0)), seq(n, i => i), {})
  }

  /** The slot `acquire` hands out is the one released last. */
  function AfterAcquire<T>(p: Pool<T>): Pool<T>
    requires p.available != []
  {
    p.(available := p.available[..|p.available| - 1], occupied := p.occupied + {p.available[|p.available| - 1]})
  }

  function NextSlot<T>(p: Pool<T>): nat
    requires p.available != []
  {
    p.available[|p.available| - 1]
  }

  function AfterRelease<T>(p: Pool<T>, i: nat): Pool<T>
    requires i < |p.slots|
  {
    p.(slots := p.slots[i := p.slots[i].(generation := p.slots[i].generation + 1)],
       available := p.available + [i],
       occupied := p.occupied - {i})
  }

  function SetValue<T>(p: Pool<T>, i: nat, value: T): Pool<T>
    requires i < |p.slots|
  {
    p.(slots := p.slots[i := p.slots[i].(value := value)])
  }

  lemma AcquireKeepsValid<T>(p: Pool<T>)
    requires Valid(p) && p.available != []
    ensures Valid(AfterAcquire(p)) && NextSlot(p) !in p.occupied && NextSlot(p) < |p.slots|
  {
    var q := AfterAcquire(p);
    forall i | 0 <= i < |q.slots| && i !in q.occupied ensures i in q.available {
      var k :| 0 <= k < |p.available| && p.available[k] == i;
      assert q.available[k] == i;
    }
  }

  lemma ReleaseKeepsValid<T>(p: Pool<T>, i: nat)
    requires Valid(p) && i in p.occupied
    ensures Valid(AfterRelease(p, i))
  {
    var q := AfterRelease(p, i);
    assert q.available[|p.available|] == i;
    forall j | 0 <= j < |q.slots| && j !in q.occupied ensures j in q.available {
      if j != i {
        var k :| 0 <= k < |p.available| && p.available[k] == j;
        assert q.available[k] == j;
      }
    }
  }

  /** `active()`, computed from the free list, is the number of occupied slots. */
  lemma ActiveIsOccupied<T>(p: Pool<T>)
    requires Valid(p)
    ensures |p.slots| - |p.available| == |p.occupied|
  {
    var free := Elements(p.available);
    var all := Below(|p.slots|);
    assert free + p.occupied == all;
    assert |free + p.occupied| == |free| + |p.occupied|;
  }

  ghost function Elements(s: seq<nat>): (r: set<nat>)
    requires Distinct(s)
    ensures |r| == |s|
    ensures forall i :: i in r <==> i in s
  {
    if s == [] then {}
    else
      var front := s[..|s| - 1];
      assert s == front + [s[|s| - 1]];
      Elements(front) + {s[|s| - 1]}
  }

  ghost function Below(n: nat): (r: set<nat>)
    ensures |r| == n
    ensures forall i: nat :: i in r <==> i < n
  {
    if n == 0 then {} else Below(n - 1) + {n - 1}
  }

  class SlotRecyclingPool<T(0)> {
    const slots: array<Slot<T>>
    var available: seq<nat>
    var occupied: set<nat>

    function View(): Pool<T>
      reads this, slots
    {
      Pool(slots[..], available, occupied)
    }

    constructor (n: nat, blank: T)
      ensures fresh(slots) && View() == NewPool(n, blank)
    {
      slots := new Slot<T>[n](_ => Slot(blank, 0));
      available := seq(n, i => i);
      occupied := {};
      new;
      assert slots[..] == NewPool(n, blank).slots;
    }

    method Acquire() returns (acquired: Option<nat>)
      modifies this
      ensures old(available) == [] ==> acquired == None && View() == old(View())
      ensures old(available) != [] ==>
        acquired == Some(NextSlot(old(View()))) && View() == AfterAcquire(old(View()))
    {
      if available == [] {
        return None;
      }
      var slot := available[|available| - 1];
      available := available[..|available| - 1];
      occupied := occupied + {slot};
      return Some(slot);
    }

    method Release(slot: nat)
      requires slot < slots.Length
      modifies this, slots
      ensures View() == AfterRelease(old(View()), slot)
    {
      slots[slot] := slots[slot].(generation := slots[slot].generation + 1);
      available := available + [slot];
      occupied := occupied - {slot};
    }

    /** An assignment through the pointer to a slot's object. */
    method Store(slot: nat, value: T)
      requires slot < slots.Length
      modifies slots
      ensures View() == SetValue(old(View()), slot, value)
    {
      slots[slot] := slots[slot].(value := value);
    }

    function Available(): nat
      reads this
    {
      |available|
    }
  }
}
