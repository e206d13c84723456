/** The order of byte-string keys, and insertion in that order. */
module KeyOrder {
  import opened Common
  import opened Bencode

  lemma {:induction false} LessIsStrict(a: seq<byte>, b: seq<byte>)
    ensures !(Less(a, b) && Less(b, a)) && (Less(a, b) || Less(b, a) || a == b) && !Less(a, a)
    decreases |a|
  {
    if a != [] && b != [] && a[0] == b[0] {
      LessIsStrict(a[1..], b[1..]);
      assert a == [a[0]] + a[1..] && b == [b[0]] + b[1..];
    }
    if a != [] { LessIsStrict(a[1..], a[1..]); }
  }

  /** The order is the one of byte strings: at the first difference the smaller byte, or the string that ends. */
  lemma {:induction false} LessIsLexicographic(a: seq<byte>, b: seq<byte>)
    ensures Less(a, b) <==> exists k :: 0 <= k <= |a| && k <= |b| && FirstDifference(a, b, k)
    decreases |a|
  {
    if a != [] && b != [] && a[0] == b[0] {
      LessIsLexicographic(a[1..], b[1..]);
      if k :| 0 <= k <= |a| && k <= |b| && FirstDifference(a, b, k) {
        assert k > 0;
        assert a[1..][..k - 1] == a[..k][1..] && b[1..][..k - 1] == b[..k][1..];
        assert FirstDifference(a[1..], b[1..], k - 1);
      }
      if k :| 0 <= k <= |a[1..]| && k <= |b[1..]| && FirstDifference(a[1..], b[1..], k) {
        assert a[..k + 1] == [a[0]] + a[1..][..k] && b[..k + 1] == [b[0]] + b[1..][..k];
        assert FirstDifference(a, b, k + 1);
      }
    } else {
      assert FirstDifference(a, b, 0) || !Less(a, b);
    }
  }

  /** The strings agree before `k`, and there `a` ends or has the smaller byte. */
  predicate FirstDifference(a: seq<byte>, b: seq<byte>, k: nat)
    requires k <= |a| && k <= |b|
  {
    a[..k] == b[..k] && k < |b| && (k == |a| || a[k] < b[k])
  }

  lemma {:induction false} LessIsTransitive(a: seq<byte>, b: seq<byte>, c: seq<byte>)
    requires Less(a, b) && Less(b, c)
    ensures Less(a, c)
    decreases |a|
  {
    if a != [] && a[0] == b[0] && b[0] == c[0] {
      LessIsTransitive(a[1..], b[1..], c[1..]);
    }
  }

  /** Strictly increasing keys. */
  ghost predicate Sorted<V>(m: seq<Keyed<V>>) {
    forall j, k :: 0 <= j < k < |m| ==> Less(m[j].key, m[k].key)
  }

  /** All keys of `m` come before `key`. */
  ghost predicate AllBefore<V>(m: seq<Keyed<V>>, key: seq<byte>) {
    forall k :: 0 <= k < |m| ==> Less(m[k].key, key)
  }

  function SortInto<V>(m: seq<Keyed<V>>, pairs: seq<Keyed<V>>): (r: seq<Keyed<V>>)
    decreases |pairs|
  {
    if pairs == [] then m else SortInto(Put(m, pairs[0]), pairs[1..])
  }

  function SortByKey<V>(pairs: seq<Keyed<V>>): seq<Keyed<V>> { SortInto([], pairs) }

  lemma {:induction false} PutAtEnd<V>(m: seq<Keyed<V>>, e: Keyed<V>)
    requires AllBefore(m, e.key)
    ensures Put(m, e) == m + [e]
  {
    if m != [] {
      LessIsStrict(m[0].key, e.key);
      assert AllBefore(m[1..], e.key);
      PutAtEnd(m[1..], e);
    }
  }

  /** Keys that appear in order stay where they are. */
  lemma {:induction false} SortedStays<V>(m: seq<Keyed<V>>, pairs: seq<Keyed<V>>)
    requires Sorted(m + pairs)
    ensures SortInto(m, pairs) == m + pairs
    decreases |pairs|
  {
    if pairs == [] {
      assert m + pairs == m;
    } else {
      var all := m + pairs;
      forall k | 0 <= k < |m| ensures Less(m[k].key, pairs[0].key) {
        assert all[k] == m[k] && all[|m|] == pairs[0];
      }
      PutAtEnd(m, pairs[0]);
      assert m + [pairs[0]] + pairs[1..] == all;
      SortedStays(m + [pairs[0]], pairs[1..]);
    }
  }

  lemma {:induction false} PutKeepsSorted<V>(m: seq<Keyed<V>>, e: Keyed<V>)
    requires Sorted(m) && forall k :: 0 <= k < |m| ==> m[k].key != e.key
    ensures Sorted(Put(m, e))
    ensures forall key :: (forall k :: 0 <= k < |m| ==> Less(key, m[k].key)) && Less(key, e.key) ==>
      forall k :: 0 <= k < |Put(m, e)| ==> Less(key, Put(m, e)[k].key)
  {
    if m != [] {
      LessIsStrict(e.key, m[0].key);
      if Less(e.key, m[0].key) {
        forall k | 0 < k < |m| ensures Less(e.key, m[k].key) { LessIsTransitive(e.key, m[0].key, m[k].key); }
      } else {
        PutKeepsSorted(m[1..], e);
        hide Less;
        var r := Put(m[1..], e);
        assert forall k :: 0 <= k < |r| ==> Less(m[0].key, r[k].key);
      }
    }
  }

  lemma {:induction false} PutIsPermutation<V>(m: seq<Keyed<V>>, e: Keyed<V>)
    ensures multiset(Put(m, e)) == multiset(m) + multiset{e}
  {
    hide Less;
    if m != [] && !Less(e.key, m[0].key) {
      PutIsPermutation(m[1..], e);
      assert m == [m[0]] + m[1..];
    }
  }

  /** Sorting pairs with different keys gives the same pairs in strictly increasing key order. */
  lemma {:induction false} SortIsSorted<V>(m: seq<Keyed<V>>, pairs: seq<Keyed<V>>)
    requires Sorted(m) && UniqueKeys(pairs)
    requires forall j, k :: 0 <= j < |m| && 0 <= k < |pairs| ==> m[j].key != pairs[k].key
    ensures Sorted(SortInto(m, pairs))
    ensures multiset(SortInto(m, pairs)) == multiset(m) + multiset(pairs)
    decreases |pairs|
  {
    if pairs != [] {
      var m' := Put(m, pairs[0]);
      PutKeepsSorted(m, pairs[0]);
      PutIsPermutation(m, pairs[0]);
      assert pairs == [pairs[0]] + pairs[1..];
      forall j, k | 0 <= j < |m'| && 0 <= k < |pairs[1..]| ensures m'[j].key != pairs[1..][k].key {
        assert m'[j] in multiset(m');
        if m'[j] in m {
          var n :| 0 <= n < |m| && m[n] == m'[j];
          assert pairs[1..][k] == pairs[k + 1];
        }
      }
      SortIsSorted(m', pairs[1..]);
    }
  }

  // Any other sort.

  /** No pair comes after one with a greater key: what `std::sort` promises, whatever it does with equal keys. */
  ghost predicate Ascending<V>(m: seq<Keyed<V>>) {
    forall j, k :: 0 <= j < k < |m| ==> !Less(m[k].key, m[j].key)
  }

  lemma Without<V>(m: seq<Keyed<V>>, i: nat)
    requires i < |m|
    ensures multiset(m) == multiset(m[..i] + m[i + 1..]) + multiset{m[i]}
  {
    assert m == m[..i] + [m[i]] + m[i + 1..];
  }

  /** One pair taken from a sequence and from a permutation of it leaves permutations. */
  lemma Remaining<V>(a: seq<Keyed<V>>, i: nat, b: seq<Keyed<V>>, j: nat)
    requires i < |a| && j < |b| && a[i] == b[j] && multiset(a) == multiset(b)
    ensures multiset(a[..i] + a[i + 1..]) == multiset(b[..j] + b[j + 1..])
  {
    Without(a, i);
    Without(b, j);
    var x, y, e := multiset(a[..i] + a[i + 1..]), multiset(b[..j] + b[j + 1..]), multiset{a[i]};
    assert x == x + e - e && y == y + e - e;
  }

  lemma IsSomewhere<V>(a: seq<Keyed<V>>, b: seq<Keyed<V>>, i: nat) returns (j: nat)
    requires i < |a| && multiset(a) == multiset(b)
    ensures j < |b| && b[j] == a[i]
  {
    assert a[i] in multiset(b);
    j :| 0 <= j < |b| && b[j] == a[i];
  }

  lemma SameLength<V>(a: seq<Keyed<V>>, b: seq<Keyed<V>>)
    requires multiset(a) == multiset(b)
    ensures |a| == |b|
  {
    assert |a| == |multiset(a)|;
  }

  lemma RestIsUnique<V>(pairs: seq<Keyed<V>>)
    requires pairs != [] && UniqueKeys(pairs)
    ensures UniqueKeys(pairs[1..])
    ensures forall e :: e in pairs[1..] ==> e.key != pairs[0].key
  {
  }

  lemma {:induction false} PermutedKeysAreUnique<V>(pairs: seq<Keyed<V>>, m: seq<Keyed<V>>)
    requires UniqueKeys(pairs) && multiset(m) == multiset(pairs)
    ensures UniqueKeys(m)
    decreases |pairs|
  {
    SameLength(pairs, m);
    if pairs != [] {
      RestIsUnique(pairs);
      hide UniqueKeys;
      var i := IsSomewhere(pairs, m, 0);
      var others := m[..i] + m[i + 1..];
      RemainingAfterFirst(m, i, pairs);
      PermutedKeysAreUnique(pairs[1..], others);
      forall k | 0 <= k < |others|
        ensures others[k].key != m[i].key
      {
        var n := IsSomewhere(others, pairs[1..], k);
      }
      PutBack(m, i, others);
    } else {
      assert m == [];
    }
  }

  lemma RemainingAfterFirst<V>(a: seq<Keyed<V>>, i: nat, b: seq<Keyed<V>>)
    requires i < |a| && b != [] && a[i] == b[0] && multiset(a) == multiset(b)
    ensures multiset(a[..i] + a[i + 1..]) == multiset(b[1..])
  {
    Remaining(a, i, b, 0);
    assert b[..0] + b[1..] == b[1..];
  }

  lemma PutBack<V>(m: seq<Keyed<V>>, i: nat, others: seq<Keyed<V>>)
    requires i < |m| && others == m[..i] + m[i + 1..] && UniqueKeys(others)
    requires forall k :: 0 <= k < |others| ==> others[k].key != m[i].key
    ensures UniqueKeys(m)
  {
    forall j, k | 0 <= j < k < |m|
      ensures m[j].key != m[k].key
    {
      assert j < i ==> others[j] == m[j];
      assert k < i ==> others[k] == m[k];
      assert j > i ==> others[j - 1] == m[j];
      assert k > i ==> others[k - 1] == m[k];
    }
  }

  lemma SameFirst<V>(a: seq<Keyed<V>>, b: seq<Keyed<V>>)
    requires a != [] && b != [] && Sorted(a) && Sorted(b) && multiset(a) == multiset(b)
    ensures a[0] == b[0]
  {
    var j := IsSomewhere(b, a, 0);
    var k := IsSomewhere(a, b, 0);
    LessIsStrict(a[0].key, b[0].key);
  }

  lemma RestIsSorted<V>(m: seq<Keyed<V>>)
    requires m != [] && Sorted(m)
    ensures Sorted(m[1..]) && m == [m[0]] + m[1..] && m[..0] + m[1..] == m[1..]
  {
  }

  lemma {:induction false} SortedIsUnique<V>(a: seq<Keyed<V>>, b: seq<Keyed<V>>)
    requires Sorted(a) && Sorted(b) && multiset(a) == multiset(b)
    ensures a == b
    decreases |a|
  {
    hide Sorted;
    SameLength(a, b);
    if a != [] {
      SameFirst(a, b);
      RestIsSorted(a);
      RestIsSorted(b);
      RemainingAfterFirst(a, 0, b);
      SortedIsUnique(a[1..], b[1..]);
    }
  }

  /** With different keys, every sort of the pairs by key gives the same sequence. */
  lemma AnySortAgrees<V>(pairs: seq<Keyed<V>>, m: seq<Keyed<V>>)
    requires UniqueKeys(pairs) && Ascending(m) && multiset(m) == multiset(pairs)
    ensures m == SortByKey(pairs)
  {
    PermutedKeysAreUnique(pairs, m);
    forall j, k | 0 <= j < k < |m|
      ensures Less(m[j].key, m[k].key)
    {
      LessIsStrict(m[j].key, m[k].key);
    }
    SortIsSorted([], pairs);
    SortedIsUnique(m, SortByKey(pairs));
  }
}
