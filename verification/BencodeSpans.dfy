/** Source spans: what a nested value remembers of its place is enough to decode it again on its own. */
module BencodeSpans {
  import opened Common
  import opened Bencode
  import opened BencodeGrammar

  /** A step from a container to one of its children. */
  datatype Step = Item(index: nat) | Field(key: seq<byte>)

  function Find<V>(m: seq<Keyed<V>>, key: seq<byte>): Option<V> {
    if m == [] then None else if m[0].key == key then Some(m[0].value) else Find(m[1..], key)
  }

  function Child(d: Data, step: Step): Option<Data> {
    match (d.value, step)
    case (List(items), Item(k)) => if k < |items| then Some(items[k]) else None
    case (Dictionary(entries), Field(key)) => Find(entries, key)
    case _ => None
  }

  /** The node at the end of a path, at any depth. */
  function Node(d: Data, path: seq<Step>): Option<Data>
    decreases |path|
  {
    if path == [] then Some(d)
    else match Child(d, path[0])
      case None => None
      case Some(child) => Node(child, path[1..])
  }

  /** The same value with every position moved back by `k`. */
  function Shift(d: Data, k: nat): Data
    decreases d, 1
  {
    var value :=
      match d.value
      case Integer(n) => Integer(n)
      case String(bytes) => String(bytes)
      case List(items) => List(ShiftItems(items, k))
      case Dictionary(entries) => Dictionary(ShiftEntries(entries, k));
    Data(value, if d.start >= k then d.start - k else 0, d.size)
  }

  function ShiftItems(items: seq<Data>, k: nat): (r: seq<Data>)
    ensures |r| == |items|
    decreases items, 0
  {
    if items == [] then [] else [Shift(items[0], k)] + ShiftItems(items[1..], k)
  }

  function ShiftEntries(entries: seq<Keyed<Data>>, k: nat): (r: seq<Keyed<Data>>)
    ensures |r| == |entries|
    decreases entries, 0
  {
    if entries == [] then []
    else [Keyed(entries[0].key, Shift(entries[0].value, k))] + ShiftEntries(entries[1..], k)
  }

  // Positions are relative to where the bytes start.

  lemma {:induction false} ShiftMoves(t: Tree, at: nat, k: nat)
    ensures Shift(DataOf(t, at + k), k) == DataOf(t, at)
    decreases t, 1
  {
    hide Unparse;
    match t
    case Number(n) =>
    case Text(bytes) =>
    case Items(items) => ShiftMovesItems(items, at + 1, k);
    case Pairs(pairs) =>
      ShiftMovesPairs([], pairs, at + 1, k);
      assert ShiftEntries([], k) == [];
  }

  lemma {:induction false} ShiftMovesItems(items: seq<Tree>, at: nat, k: nat)
    ensures ShiftItems(DataOfItems(items, at + k), k) == DataOfItems(items, at)
    decreases items, 0
  {
    hide Unparse, Shift, DataOf;
    if items != [] {
      ShiftMoves(items[0], at, k);
      var at' := at + |Unparse(items[0])|;
      ShiftMovesItems(items[1..], at', k);
      var r := DataOfItems(items, at + k);
      assert r[1..] == DataOfItems(items[1..], at' + k);
    }
  }

  lemma {:induction false} ShiftPut(m: seq<Keyed<Data>>, e: Keyed<Data>, k: nat)
    ensures ShiftEntries(Put(m, e), k) == Put(ShiftEntries(m, k), Keyed(e.key, Shift(e.value, k)))
    decreases |m|
  {
    hide Shift, Less;
    if m == [] || Less(e.key, m[0].key) {
      assert ([e] + m)[1..] == m;
    } else {
      ShiftPut(m[1..], e, k);
      assert ([m[0]] + Put(m[1..], e))[1..] == Put(m[1..], e);
      assert ShiftEntries(m, k)[1..] == ShiftEntries(m[1..], k);
    }
  }

  lemma {:induction false} ShiftMovesPairs(m: seq<Keyed<Data>>, pairs: seq<Keyed<Tree>>, at: nat, k: nat)
    ensures ShiftEntries(DataOfPairs(m, pairs, at + k), k) == DataOfPairs(ShiftEntries(m, k), pairs, at)
    decreases pairs, 0
  {
    hide Unparse, TextBytes, Shift, DataOf, Put, ShiftEntries;
    if pairs != [] {
      var at' := at + |TextBytes(pairs[0].key)|;
      var e := Keyed(pairs[0].key, DataOf(pairs[0].value, at' + k));
      ShiftMoves(pairs[0].value, at', k);
      ShiftPut(m, e, k);
      ShiftMovesPairs(Put(m, e), pairs[1..], at' + |Unparse(pairs[0].value)|, k);
    }
  }

  // Children of a value that was read.

  /** `d` is the value of the tree `t` whose bytes stand at `at` in `s`. */
  ghost predicate StandsAt(s: seq<byte>, d: Data, t: Tree, at: nat) {
    WellFormed(t) && Reads(s, at, Unparse(t)) && d == DataOf(t, at)
  }

  /** The item at index `k` of a list. */
  lemma {:induction false} ItemStands(s: seq<byte>, items: seq<Tree>, at: nat, k: nat) returns (at': nat)
    requires k < |items| && Reads(s, at, UnparseItems(items) + [DELIMITER])
    requires forall j :: 0 <= j < |items| ==> WellFormed(items[j])
    ensures StandsAt(s, DataOfItems(items, at)[k], items[k], at')
    decreases |items|
  {
    UnparseItemsOnce(items);
    hide Unparse, UnparseItems, Reads, WellFormed, DataOf;
    var first, rest := Unparse(items[0]), UnparseItems(items[1..]);
    ReadsSplit(s, at, first, rest + [DELIMITER]);
    if k == 0 {
      at' := at;
    } else {
      at' := ItemStands(s, items[1..], at + |first|, k - 1);
    }
  }

  /** An entry of the decoded map was put there by one of the pairs. */
  lemma {:induction false} EntryStands(s: seq<byte>, m: seq<Keyed<Data>>, pairs: seq<Keyed<Tree>>, at: nat, e: Keyed<Data>)
    returns (t: Tree, at': nat)
    requires Reads(s, at, UnparsePairs(pairs) + [DELIMITER]) && AllWellFormed(pairs)
    requires e in DataOfPairs(m, pairs, at) && e !in m
    ensures StandsAt(s, e.value, t, at')
    decreases |pairs|
  {
    hide Unparse, UnparsePairs, TextBytes, Reads, WellFormed, DataOf, DataOfPairs, Put;
    if pairs == [] {
      DataOfNoPairs(m, at);
      assert false;
    } else {
      UnparsePairsOnce(pairs);
      DataOfPairsOnce(m, pairs, at);
      var key, first, rest := TextBytes(pairs[0].key), Unparse(pairs[0].value), UnparsePairs(pairs[1..]);
      var c := at + |key|;
      ReadsSplit(s, at, key, first + (rest + [DELIMITER]));
      ReadsSplit(s, c, first, rest + [DELIMITER]);
      var f := Keyed(pairs[0].key, DataOf(pairs[0].value, c));
      PutMembers(m, f);
      if e == f {
        t, at' := pairs[0].value, c;
      } else {
        t, at' := EntryStands(s, Put(m, f), pairs[1..], c + |first|, e);
      }
    }
  }

  lemma DataOfNoPairs(m: seq<Keyed<Data>>, at: nat)
    ensures DataOfPairs(m, [], at) == m
  {
  }

  lemma {:induction false} PutMembers<V>(m: seq<Keyed<V>>, e: Keyed<V>)
    ensures forall x :: x in Put(m, e) <==> x in m || x == e
  {
    hide Less;
    if m != [] && !Less(e.key, m[0].key) {
      PutMembers(m[1..], e);
      assert m == [m[0]] + m[1..];
    }
  }

  lemma {:induction false} FindMember<V>(m: seq<Keyed<V>>, key: seq<byte>)
    ensures Find(m, key).Some? ==> Keyed(key, Find(m, key).value) in m
  {
    if m != [] && m[0].key != key {
      FindMember(m[1..], key);
    }
  }

  lemma ChildStands(s: seq<byte>, d: Data, t: Tree, at: nat, step: Step) returns (t': Tree, at': nat)
    requires StandsAt(s, d, t, at) && Child(d, step).Some?
    ensures StandsAt(s, Child(d, step).value, t', at')
  {
    DataOfOnce(t, at);
    UnparseContainer(t);
    WellFormedOnce(t);
    hide Unparse, Reads, WellFormed, DataOf, UnparseItems, UnparsePairs, DataOfItems, DataOfPairs;
    match t
    case Items(items) =>
      assert [] + DataOfItems(items, at + 1) == DataOfItems(items, at + 1);
      ReadsSplit(s, at, [LIST], UnparseItems(items) + [DELIMITER]);
      t' := items[step.index];
      at' := ItemStands(s, items, at + 1, step.index);
    case Pairs(pairs) =>
      ReadsSplit(s, at, [DICTIONARY], UnparsePairs(pairs) + [DELIMITER]);
      FindMember(d.value.entries, step.key);
      t', at' := EntryStands(s, [], pairs, at + 1, Keyed(step.key, Child(d, step).value));
    case Number(_) => assert false;
    case Text(_) => assert false;
  }

  lemma {:induction false} NodeStands(s: seq<byte>, d: Data, t: Tree, at: nat, path: seq<Step>)
    returns (t': Tree, at': nat)
    requires StandsAt(s, d, t, at) && Node(d, path).Some?
    ensures StandsAt(s, Node(d, path).value, t', at')
    decreases |path|
  {
    hide StandsAt;
    if path == [] {
      t', at' := t, at;
    } else {
      var u, b := ChildStands(s, d, t, at, path[0]);
      t', at' := NodeStands(s, Child(d, path[0]).value, u, b, path[1..]);
    }
  }

  lemma SpanDecodes(s: seq<byte>, d: Data, t: Tree, at: nat)
    requires StandsAt(s, d, t, at)
    ensures d.start + d.size <= |s| && Input(s[d.start..d.start + d.size]) == Some(Shift(d, d.start))
  {
    var part := s[d.start..d.start + d.size];
    ShiftMoves(t, 0, at);
    assert part[0..|part|] == part;
    TreeIsRead(part, 0, t);
    hide Shift, DataOf, ParseAny, Unparse;
  }

  /**
   * Every node at any depth can be decoded from its span alone, and gives the same value with the
   * positions counted from the start of the span. The info hash is taken of such a span.
   */
  lemma SpansAreExact(s: seq<byte>, d: Data, path: seq<Step>)
    requires Input(s) == Some(d) && Node(d, path).Some?
    ensures var n := Node(d, path).value;
            n.start + n.size <= |s| && Input(s[n.start..n.start + n.size]) == Some(Shift(n, n.start))
  {
    hide ParseAny, Unparse, DataOf, WellFormed, Node, Shift, Input;
    DecodesExactlyTheGrammar(s, d);
    var t :| WellFormed(t) && Unparse(t) == s && DataOf(t, 0) == d;
    assert s[0..|s|] == s;
    var t', at' := NodeStands(s, d, t, 0, path);
    SpanDecodes(s, Node(d, path).value, t', at');
  }

  // Siblings.

  predicate Apart(a: Data, b: Data) { a.start + a.size <= b.start || b.start + b.size <= a.start }

  predicate Within(d: Data, from: nat, to: nat) { from <= d.start && d.start + d.size <= to }

  /** The items of a list are laid end to end. */
  lemma {:induction false} ItemsAreAdjacent(items: seq<Tree>, at: nat)
    ensures var r := DataOfItems(items, at);
            && (forall k :: 0 <= k < |r| ==> Within(r[k], at, at + |UnparseItems(items)|))
            && (r != [] ==> r[0].start == at && r[|r| - 1].start + r[|r| - 1].size == at + |UnparseItems(items)|)
            && (forall k :: 0 < k < |r| ==> r[k].start == r[k - 1].start + r[k - 1].size)
            && (forall j, k :: 0 <= j < k < |r| ==> Apart(r[j], r[k]))
    decreases |items|
  {
    hide Unparse, DataOf;
    if items != [] {
      ItemsAreAdjacent(items[1..], at + |Unparse(items[0])|);
    }
  }

  ghost predicate AllWithin(m: seq<Keyed<Data>>, from: nat, to: nat) {
    forall e :: e in m ==> Within(e.value, from, to)
  }

  ghost predicate AllApart(m: seq<Keyed<Data>>) {
    forall e, f :: e in m && f in m && e != f ==> Apart(e.value, f.value)
  }

  lemma {:induction false} EntriesAreApart(m: seq<Keyed<Data>>, pairs: seq<Keyed<Tree>>, from: nat, at: nat)
    requires AllApart(m) && AllWithin(m, from, at) && from <= at
    ensures var r := DataOfPairs(m, pairs, at);
            AllApart(r) && AllWithin(r, from, at + |UnparsePairs(pairs)|)
    decreases |pairs|
  {
    hide Unparse, UnparsePairs, TextBytes, DataOf, DataOfPairs, Put;
    if pairs == [] {
      DataOfNoPairs(m, at);
    } else {
      DataOfPairsOnce(m, pairs, at);
      UnparsePairsOnce(pairs);
      var c := at + |TextBytes(pairs[0].key)|;
      var e := Keyed(pairs[0].key, DataOf(pairs[0].value, c));
      PutMembers(m, e);
      EntriesAreApart(Put(m, e), pairs[1..], from, c + |Unparse(pairs[0].value)|);
    }
  }

  lemma FoundEntries(m: seq<Keyed<Data>>, from: nat, to: nat, a: seq<byte>, b: seq<byte>)
    requires AllApart(m) && AllWithin(m, from, to) && Find(m, a).Some?
    ensures Within(Find(m, a).value, from, to)
    ensures Find(m, b).Some? && a != b ==> Apart(Find(m, a).value, Find(m, b).value)
  {
    hide Find;
    FindMember(m, a);
    FindMember(m, b);
  }

  /** Two children of a list. */
  lemma ItemsOfTree(items: seq<Tree>, at: nat, step: Step, other: Step)
    requires Child(DataOf(Items(items), at), step).Some?
    ensures Within(Child(DataOf(Items(items), at), step).value, at + 1, at + |Unparse(Items(items))| - 1)
    ensures other != step && Child(DataOf(Items(items), at), other).Some? ==>
      Apart(Child(DataOf(Items(items), at), step).value, Child(DataOf(Items(items), at), other).value)
  {
    hide DataOf, Unparse, DataOfItems, UnparseItems;
    DataOfOnce(Items(items), at);
    assert [] + DataOfItems(items, at + 1) == DataOfItems(items, at + 1);
    UnparseContainer(Items(items));
    ItemPair(items, at + 1, step.index, if other.Item? then other.index else step.index);
  }

  lemma ItemPair(items: seq<Tree>, at: nat, j: nat, k: nat)
    requires j < |items|
    ensures Within(DataOfItems(items, at)[j], at, at + |UnparseItems(items)|)
    ensures k < |items| && j != k ==> Apart(DataOfItems(items, at)[j], DataOfItems(items, at)[k])
  {
    hide DataOfItems, UnparseItems, Within;
    ItemsAreAdjacent(items, at);
  }

  lemma PairsOfTree(pairs: seq<Keyed<Tree>>, at: nat, step: Step, other: Step)
    requires Child(DataOf(Pairs(pairs), at), step).Some?
    ensures Within(Child(DataOf(Pairs(pairs), at), step).value, at + 1, at + |Unparse(Pairs(pairs))| - 1)
    ensures other != step && Child(DataOf(Pairs(pairs), at), other).Some? ==>
      Apart(Child(DataOf(Pairs(pairs), at), step).value, Child(DataOf(Pairs(pairs), at), other).value)
  {
    hide DataOf, Unparse, DataOfPairs, UnparsePairs, Find, AllApart, AllWithin;
    DataOfOnce(Pairs(pairs), at);
    UnparseContainer(Pairs(pairs));
    NoEntries(at + 1);
    EntriesAreApart([], pairs, at + 1, at + 1);
    FoundEntries(DataOfPairs([], pairs, at + 1), at + 1, at + 1 + |UnparsePairs(pairs)|, step.key,
                 if other.Field? then other.key else step.key);
  }

  lemma NoEntries(at: nat)
    ensures AllApart([]) && AllWithin([], at, at)
  {
  }

  lemma ChildrenOfTree(t: Tree, at: nat, step: Step, other: Step)
    requires Child(DataOf(t, at), step).Some?
    ensures Within(Child(DataOf(t, at), step).value, at + 1, at + |Unparse(t)| - 1)
    ensures other != step && Child(DataOf(t, at), other).Some? ==>
      Apart(Child(DataOf(t, at), step).value, Child(DataOf(t, at), other).value)
  {
    DataOfOnce(t, at);
    hide DataOf, Unparse;
    match t
    case Items(items) => ItemsOfTree(items, at, step, other);
    case Pairs(pairs) => PairsOfTree(pairs, at, step, other);
    case Number(_) => assert false;
    case Text(_) => assert false;
  }

  /** Children lie strictly inside their parent, and no two of them overlap. */
  lemma ChildrenAreDisjoint(s: seq<byte>, d: Data, path: seq<Step>, step: Step, other: Step)
    requires Input(s) == Some(d) && Node(d, path).Some? && Child(Node(d, path).value, step).Some?
    ensures var n := Node(d, path).value; var c := Child(n, step).value;
            && n.start < c.start && c.start + c.size < n.start + n.size
            && (other != step && Child(n, other).Some? ==> Apart(c, Child(n, other).value))
  {
    hide ParseAny, Unparse, DataOf, WellFormed, Node, Input, Child;
    DecodesExactlyTheGrammar(s, d);
    var t :| WellFormed(t) && Unparse(t) == s && DataOf(t, 0) == d;
    assert s[0..|s|] == s;
    var t', at' := NodeStands(s, d, t, 0, path);
    ChildrenOfTree(t', at', step, other);
  }
}
