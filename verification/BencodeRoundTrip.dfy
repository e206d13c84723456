/** The encoder over whole values, and what encoding and decoding undo of each other. */
module BencodeRoundTrip {
  import opened Common
  import opened Decimal
  import opened Bencode
  import opened BencodeGrammar
  import opened KeyOrder

  // The four encoders.

  function EncodeInteger(n: int): seq<byte> { [INTEGER] + ToString(n) + [DELIMITER] }

  function Concatenated(parts: seq<seq<byte>>): seq<byte> {
    if parts == [] then [] else parts[0] + Concatenated(parts[1..])
  }

  function EncodeList(items: seq<seq<byte>>): seq<byte> { [LIST] + Concatenated(items) + [DELIMITER] }

  function ConcatenatedPairs(pairs: seq<Keyed<seq<byte>>>): seq<byte> {
    if pairs == [] then []
    else TextBytes(pairs[0].key) + pairs[0].value + ConcatenatedPairs(pairs[1..])
  }

  /** The pairs are sorted by key before they are written. */
  function EncodeDictionary(pairs: seq<Keyed<seq<byte>>>): seq<byte> {
    [DICTIONARY] + ConcatenatedPairs(SortByKey(pairs)) + [DELIMITER]
  }

  /** The encoders composed over a whole value. */
  function Encode(t: Tree): seq<byte>
    decreases t, 1
  {
    match t
    case Number(n) => EncodeInteger(n)
    case Text(bytes) => TextBytes(bytes)
    case Items(items) => EncodeList(EncodeItems(items))
    case Pairs(pairs) => EncodeDictionary(EncodePairs(pairs))
  }

  function EncodeItems(items: seq<Tree>): (r: seq<seq<byte>>)
    decreases items, 0
  {
    if items == [] then [] else [Encode(items[0])] + EncodeItems(items[1..])
  }

  function EncodePairs(pairs: seq<Keyed<Tree>>): (r: seq<Keyed<seq<byte>>>)
    decreases pairs, 0
  {
    if pairs == [] then [] else [Keyed(pairs[0].key, Encode(pairs[0].value))] + EncodePairs(pairs[1..])
  }

  // The value of a tree without positions: dictionaries in key order, as a map holds them.

  function Canonical(t: Tree): Tree
    decreases t, 1
  {
    match t
    case Number(n) => t
    case Text(bytes) => t
    case Items(items) => Items(CanonicalItems(items))
    case Pairs(pairs) => Pairs(SortByKey(CanonicalPairs(pairs)))
  }

  function CanonicalItems(items: seq<Tree>): (r: seq<Tree>)
    ensures |r| == |items| && forall k :: 0 <= k < |r| ==> r[k] == Canonical(items[k])
    decreases items, 0
  {
    if items == [] then [] else [Canonical(items[0])] + CanonicalItems(items[1..])
  }

  function CanonicalPairs(pairs: seq<Keyed<Tree>>): (r: seq<Keyed<Tree>>)
    ensures |r| == |pairs|
    ensures forall k :: 0 <= k < |r| ==> r[k] == Keyed(pairs[k].key, Canonical(pairs[k].value))
    decreases pairs, 0
  {
    if pairs == [] then [] else [Keyed(pairs[0].key, Canonical(pairs[0].value))] + CanonicalPairs(pairs[1..])
  }

  /** A decoded value without its positions. */
  function Erase(d: Data): Tree
    decreases d, 1
  {
    match d.value
    case Integer(n) => Number(n)
    case String(bytes) => Text(bytes)
    case List(items) => Items(EraseItems(items))
    case Dictionary(entries) => Pairs(EraseEntries(entries))
  }

  function EraseItems(items: seq<Data>): (r: seq<Tree>)
    decreases items, 0
  {
    if items == [] then [] else [Erase(items[0])] + EraseItems(items[1..])
  }

  function EraseEntries(entries: seq<Keyed<Data>>): (r: seq<Keyed<Tree>>)
    decreases entries, 0
  {
    if entries == [] then [] else [Keyed(entries[0].key, Erase(entries[0].value))] + EraseEntries(entries[1..])
  }

  /** Every dictionary's keys appear in order, at every depth. */
  ghost predicate InKeyOrder(t: Tree)
    decreases t
  {
    match t
    case Number(_) => true
    case Text(_) => true
    case Items(items) => forall k :: 0 <= k < |items| ==> InKeyOrder(items[k])
    case Pairs(pairs) => Sorted(pairs) && forall k :: 0 <= k < |pairs| ==> InKeyOrder(pairs[k].value)
  }

  // Decoding keeps the value.

  lemma {:induction false} ErasePut(m: seq<Keyed<Data>>, e: Keyed<Data>)
    ensures EraseEntries(Put(m, e)) == Put(EraseEntries(m), Keyed(e.key, Erase(e.value)))
    decreases |m|
  {
    hide Erase, Less;
    if m == [] || Less(e.key, m[0].key) {
      assert ([e] + m)[1..] == m;
    } else {
      ErasePut(m[1..], e);
      assert ([m[0]] + Put(m[1..], e))[1..] == Put(m[1..], e);
      assert EraseEntries(m)[1..] == EraseEntries(m[1..]);
    }
  }

  lemma {:induction false} EraseIsCanonical(t: Tree, at: nat)
    ensures Erase(DataOf(t, at)) == Canonical(t)
    decreases t, 1
  {
    hide Unparse;
    match t
    case Number(n) =>
    case Text(bytes) =>
    case Items(items) => EraseIsCanonicalItems(items, at + 1);
    case Pairs(pairs) =>
      EraseIsCanonicalPairs([], pairs, at + 1);
      assert EraseEntries([]) == [];
  }

  lemma {:induction false} EraseIsCanonicalItems(items: seq<Tree>, at: nat)
    ensures EraseItems(DataOfItems(items, at)) == CanonicalItems(items)
    decreases items, 0
  {
    hide Unparse, Erase, DataOf, Canonical;
    if items != [] {
      EraseIsCanonical(items[0], at);
      EraseIsCanonicalItems(items[1..], at + |Unparse(items[0])|);
      assert DataOfItems(items, at)[1..] == DataOfItems(items[1..], at + |Unparse(items[0])|);
    }
  }

  lemma {:induction false} EraseIsCanonicalPairs(m: seq<Keyed<Data>>, pairs: seq<Keyed<Tree>>, at: nat)
    ensures EraseEntries(DataOfPairs(m, pairs, at)) == SortInto(EraseEntries(m), CanonicalPairs(pairs))
    decreases pairs, 0
  {
    hide Unparse, TextBytes, Erase, DataOf, Canonical, Put, EraseEntries;
    if pairs != [] {
      var c := at + |TextBytes(pairs[0].key)|;
      var e := Keyed(pairs[0].key, DataOf(pairs[0].value, c));
      EraseIsCanonical(pairs[0].value, c);
      ErasePut(m, e);
      EraseIsCanonicalPairs(Put(m, e), pairs[1..], c + |Unparse(pairs[0].value)|);
      assert CanonicalPairs(pairs)[1..] == CanonicalPairs(pairs[1..]);
    }
  }

  // Encoding writes the canonical tree.

  /** The pairs of trees, each written out. */
  function Written(m: seq<Keyed<Tree>>): (r: seq<Keyed<seq<byte>>>)
    ensures |r| == |m|
  {
    if m == [] then [] else [Keyed(m[0].key, Unparse(m[0].value))] + Written(m[1..])
  }

  lemma {:induction false} WrittenPut(m: seq<Keyed<Tree>>, e: Keyed<Tree>)
    ensures Written(Put(m, e)) == Put(Written(m), Keyed(e.key, Unparse(e.value)))
    decreases |m|
  {
    hide Unparse, Less;
    if m == [] || Less(e.key, m[0].key) {
      assert ([e] + m)[1..] == m;
    } else {
      WrittenPut(m[1..], e);
      assert ([m[0]] + Put(m[1..], e))[1..] == Put(m[1..], e);
      assert Written(m)[1..] == Written(m[1..]);
    }
  }

  lemma {:induction false} WrittenSort(m: seq<Keyed<Tree>>, pairs: seq<Keyed<Tree>>)
    ensures Written(SortInto(m, pairs)) == SortInto(Written(m), Written(pairs))
    decreases |pairs|
  {
    hide Unparse, Put;
    if pairs != [] {
      WrittenPut(m, pairs[0]);
      WrittenSort(Put(m, pairs[0]), pairs[1..]);
      assert Written(pairs)[1..] == Written(pairs[1..]);
    }
  }

  lemma {:induction false} WrittenConcatenates(m: seq<Keyed<Tree>>)
    ensures ConcatenatedPairs(Written(m)) == UnparsePairs(m)
    decreases |m|
  {
    hide Unparse;
    if m != [] {
      WrittenConcatenates(m[1..]);
      assert Written(m)[1..] == Written(m[1..]);
    }
  }

  lemma {:induction false} EncodeWritesCanonical(t: Tree)
    ensures Encode(t) == Unparse(Canonical(t))
    decreases t, 1
  {
    match t
    case Number(n) =>
    case Text(bytes) =>
    case Items(items) => EncodeItemsWritesCanonical(items);
    case Pairs(pairs) =>
      EncodePairsWritesCanonical(pairs);
      var sorted := SortByKey(CanonicalPairs(pairs));
      WrittenSort([], CanonicalPairs(pairs));
      assert Written([]) == [];
      WrittenConcatenates(sorted);
  }

  lemma {:induction false} EncodeItemsWritesCanonical(items: seq<Tree>)
    ensures Concatenated(EncodeItems(items)) == UnparseItems(CanonicalItems(items))
    decreases items, 0
  {
    hide Encode, Unparse, Canonical;
    if items != [] {
      EncodeWritesCanonical(items[0]);
      EncodeItemsWritesCanonical(items[1..]);
      assert EncodeItems(items)[1..] == EncodeItems(items[1..]);
      assert CanonicalItems(items)[1..] == CanonicalItems(items[1..]);
    }
  }

  lemma {:induction false} EncodePairsWritesCanonical(pairs: seq<Keyed<Tree>>)
    ensures EncodePairs(pairs) == Written(CanonicalPairs(pairs))
    decreases pairs, 0
  {
    hide Encode, Unparse, Canonical;
    if pairs != [] {
      EncodeWritesCanonical(pairs[0].value);
      EncodePairsWritesCanonical(pairs[1..]);
      assert CanonicalPairs(pairs)[1..] == CanonicalPairs(pairs[1..]);
    }
  }

  // Canonical trees.

  lemma {:induction false} CanonicalIsFine(t: Tree)
    requires WellFormed(t)
    ensures WellFormed(Canonical(t)) && InKeyOrder(Canonical(t))
    decreases t
  {
    match t
    case Number(_) =>
    case Text(_) =>
    case Items(items) =>
      forall k | 0 <= k < |items| ensures WellFormed(CanonicalItems(items)[k]) && InKeyOrder(CanonicalItems(items)[k]) {
        CanonicalIsFine(items[k]);
      }
    case Pairs(pairs) =>
      var m := CanonicalPairs(pairs);
      SortIsSorted([], m);
      var r := SortByKey(m);
      forall k | 0 <= k < |r| ensures |r[k].key| <= INT64_MAX && WellFormed(r[k].value) && InKeyOrder(r[k].value) {
        assert r[k] in multiset(r);
        var j :| 0 <= j < |m| && m[j] == r[k];
        CanonicalIsFine(pairs[j].value);
      }
      SortedKeysAreUnique(r);
  }

  lemma SortedKeysAreUnique<V>(m: seq<Keyed<V>>)
    requires Sorted(m)
    ensures UniqueKeys(m)
  {
    forall j, k | 0 <= j < k < |m| ensures m[j].key != m[k].key {
      LessIsStrict(m[j].key, m[k].key);
    }
  }

  lemma {:induction false} InOrderIsCanonical(t: Tree)
    requires InKeyOrder(t)
    ensures Canonical(t) == t
    decreases t
  {
    match t
    case Number(_) =>
    case Text(_) =>
    case Items(items) =>
      forall k | 0 <= k < |items| ensures CanonicalItems(items)[k] == items[k] {
        InOrderIsCanonical(items[k]);
      }
      assert CanonicalItems(items) == items;
    case Pairs(pairs) =>
      var m := CanonicalPairs(pairs);
      forall k | 0 <= k < |pairs| ensures m[k] == pairs[k] {
        InOrderIsCanonical(pairs[k].value);
      }
      assert m == pairs && [] + m == m;
      SortedStays([], m);
  }

  // No two trees have the same bytes.

  lemma {:induction false} Unambiguous(t: Tree, u: Tree, r: seq<byte>, q: seq<byte>)
    requires WellFormed(t) && WellFormed(u) && Unparse(t) + r == Unparse(u) + q
    ensures t == u && r == q
    decreases t, 1
  {
    StopsAtTheEnd(t, r);
    StopsAtTheEnd(u, q);
    hide ParseAny;
    assert Unparse(t) == (Unparse(t) + r)[..|Unparse(t)|] == Unparse(u);
    assert r == (Unparse(t) + r)[|Unparse(t)|..] == q;
    SameBytes(t, u);
  }

  lemma {:induction false} SameBytes(t: Tree, u: Tree)
    requires WellFormed(t) && WellFormed(u) && Unparse(t) == Unparse(u)
    ensures t == u
    decreases t, 0
  {
    FirstByte(t);
    FirstByte(u);
    UnparseContainer(t);
    UnparseContainer(u);
    WellFormedOnce(t);
    WellFormedOnce(u);
    match t
    case Number(n) =>
      SameToken(t, u);
    case Text(bytes) =>
      SameToken(t, u);
    case Items(items) =>
      hide Unparse, UnparseItems, WellFormed;
      assert ([LIST] + (UnparseItems(items) + [DELIMITER]))[1..] == UnparseItems(items) + [DELIMITER];
      assert ([LIST] + (UnparseItems(u.items) + [DELIMITER]))[1..] == UnparseItems(u.items) + [DELIMITER];
      SameItems(items, u.items);
    case Pairs(pairs) =>
      hide Unparse, UnparsePairs, WellFormed;
      assert ([DICTIONARY] + (UnparsePairs(pairs) + [DELIMITER]))[1..] == UnparsePairs(pairs) + [DELIMITER];
      assert ([DICTIONARY] + (UnparsePairs(u.pairs) + [DELIMITER]))[1..] == UnparsePairs(u.pairs) + [DELIMITER];
      SamePairs(pairs, u.pairs);
  }

  lemma SameToken(t: Tree, u: Tree)
    requires WellFormed(t) && WellFormed(u) && Unparse(t) == Unparse(u) && (t.Number? || t.Text?)
    requires t.Number? == u.Number? && t.Text? == u.Text?
    ensures t == u
  {
    StopsAtTheEnd(t, []);
    StopsAtTheEnd(u, []);
    hide ParseAny, Unparse;
  }

  lemma {:induction false} SameItems(items: seq<Tree>, others: seq<Tree>)
    requires forall k :: 0 <= k < |items| ==> WellFormed(items[k])
    requires forall k :: 0 <= k < |others| ==> WellFormed(others[k])
    requires UnparseItems(items) + [DELIMITER] == UnparseItems(others) + [DELIMITER]
    ensures items == others
    decreases items, 0
  {
    ItemsFirstByte(items);
    ItemsFirstByte(others);
    if items != [] {
      UnparseItemsOnce(items);
      UnparseItemsOnce(others);
      hide Unparse, UnparseItems, WellFormed;
      Unambiguous(items[0], others[0], UnparseItems(items[1..]) + [DELIMITER], UnparseItems(others[1..]) + [DELIMITER]);
      SameItems(items[1..], others[1..]);
      assert items == [items[0]] + items[1..] && others == [others[0]] + others[1..];
    }
  }

  lemma ItemsFirstByte(items: seq<Tree>)
    ensures (UnparseItems(items) + [DELIMITER])[0] == DELIMITER <==> items == []
  {
    if items != [] { FirstByte(items[0]); }
  }

  lemma PairsFirstByte(pairs: seq<Keyed<Tree>>)
    ensures (UnparsePairs(pairs) + [DELIMITER])[0] == DELIMITER <==> pairs == []
  {
    if pairs != [] {
      TextFirstByte(pairs[0].key);
      assert (UnparsePairs(pairs) + [DELIMITER])[0] == TextBytes(pairs[0].key)[0];
    }
  }

  lemma {:induction false} SamePairs(pairs: seq<Keyed<Tree>>, others: seq<Keyed<Tree>>)
    requires AllWellFormed(pairs) && AllWellFormed(others)
    requires UnparsePairs(pairs) + [DELIMITER] == UnparsePairs(others) + [DELIMITER]
    ensures pairs == others
    decreases pairs, 0
  {
    PairsFirstByte(pairs);
    PairsFirstByte(others);
    if pairs != [] {
      UnparsePairsOnce(pairs);
      UnparsePairsOnce(others);
      hide Unparse, UnparsePairs, WellFormed;
      var r := Unparse(pairs[0].value) + (UnparsePairs(pairs[1..]) + [DELIMITER]);
      var q := Unparse(others[0].value) + (UnparsePairs(others[1..]) + [DELIMITER]);
      SameKey(pairs[0].key, others[0].key, r, q);
      Unambiguous(pairs[0].value, others[0].value, UnparsePairs(pairs[1..]) + [DELIMITER],
                  UnparsePairs(others[1..]) + [DELIMITER]);
      SamePairs(pairs[1..], others[1..]);
      assert pairs == [pairs[0]] + pairs[1..] && others == [others[0]] + others[1..];
    }
  }

  lemma SameKey(a: seq<byte>, b: seq<byte>, r: seq<byte>, q: seq<byte>)
    requires |a| <= INT64_MAX && |b| <= INT64_MAX && TextBytes(a) + r == TextBytes(b) + q
    ensures a == b && r == q
  {
    var s := TextBytes(a) + r;
    assert s[0..|TextBytes(a)|] == TextBytes(a) && s[0..|TextBytes(b)|] == TextBytes(b);
    StringIsRead(s, 0, a);
    StringIsRead(s, 0, b);
    assert r == s[|TextBytes(a)|..] == q;
  }

  // Round trips.

  /** Decoding what was encoded gives the value back; a value is a tree with its dictionaries in key order. */
  lemma DecodeUndoesEncode(t: Tree)
    requires WellFormed(t)
    ensures Input(Encode(t)).Some? && Erase(Input(Encode(t)).value) == Canonical(t)
    ensures InKeyOrder(t) ==> Erase(Input(Encode(t)).value) == t
  {
    hide Input, Unparse, Encode, DataOf, Erase, WellFormed, Canonical;
    EncodeWritesCanonical(t);
    CanonicalIsFine(t);
    var u := Canonical(t);
    assert Derives(Unparse(u), DataOf(u, 0));
    DecodesExactlyTheGrammar(Unparse(u), DataOf(u, 0));
    EraseIsCanonical(u, 0);
    InOrderIsCanonical(u);
    if InKeyOrder(t) { InOrderIsCanonical(t); }
  }

  /** Encoding what was decoded gives the same bytes exactly when every dictionary's keys came in order. */
  lemma EncodeUndoesDecode(s: seq<byte>, t: Tree)
    requires WellFormed(t) && s == Unparse(t)
    ensures Input(s).Some?
    ensures Encode(Erase(Input(s).value)) == s <==> InKeyOrder(t)
  {
    hide Input, Unparse, Encode, DataOf, Erase, WellFormed, Canonical;
    assert Derives(s, DataOf(t, 0));
    DecodesExactlyTheGrammar(s, DataOf(t, 0));
    EraseIsCanonical(t, 0);
    var u := Canonical(t);
    CanonicalIsFine(t);
    InOrderIsCanonical(u);
    EncodeWritesCanonical(u);
    if Unparse(u) == s { SameBytes(u, t); }
    if InKeyOrder(t) { InOrderIsCanonical(t); }
  }
}
