/** The decoder accepts exactly the grammar, and reads each tree's bytes back as that tree's value. */
module BencodeGrammar {
  import opened Common
  import opened Decimal
  import opened Bencode

  // Tokens.

  lemma {:induction false} FindFirstAt(s: seq<byte>, k: nat, b: byte)
    requires k < |s| && s[k] == b && b !in s[..k]
    ensures FindFirst(s, b) == k
  {
    if k > 0 {
      assert s[0] == s[..k][0];
      assert s[1..][..k - 1] == s[..k][1..];
      FindFirstAt(s[1..], k - 1, b);
    }
  }

  /** `s[c..d]` is `part`. */
  predicate Reads(s: seq<byte>, c: nat, part: seq<byte>) {
    c + |part| <= |s| && s[c..c + |part|] == part
  }

  lemma DigitsAreNotColon(n: int)
    ensures COLON !in ToString(n) && DELIMITER !in ToString(n)
    ensures n >= 0 ==> IsDigit(ToString(n)[0])
  {
    var s := ToString(n);
    if n < 0 { assert s[1..] == Digits(-n); }
    forall k | 0 <= k < |s| ensures s[k] != COLON && s[k] != DELIMITER {
      if n < 0 && k > 0 { assert s[k] == Digits(-n)[k - 1]; }
    }
  }

  /** The pieces the decoder cuts out of a string token. */
  lemma StringPieces(bytes: seq<byte>, rest: seq<byte>)
    ensures var view, length := TextBytes(bytes) + rest, ToString(|bytes|);
            && FindFirst(view, COLON) == |length| && view[..|length|] == length
            && view[|length| + 1..|length| + 1 + |bytes|] == bytes
            && length != [] && length[0] != MINUS
  {
    var length := ToString(|bytes|);
    DigitsAreNotColon(|bytes|);
    hide ToString;
    var view := TextBytes(bytes) + rest;
    assert view == length + ([COLON] + (bytes + rest));
    assert view[..|length|] == length && view[|length|] == COLON;
    FindFirstAt(view, |length|, COLON);
  }

  lemma StringIsRead(s: seq<byte>, c: nat, bytes: seq<byte>)
    requires Reads(s, c, TextBytes(bytes)) && |bytes| <= INT64_MAX
    ensures c <= |s| && ParseString(s, c) == Success(bytes, c + |TextBytes(bytes)|)
  {
    var text := TextBytes(bytes);
    var rest := s[c + |text|..];
    assert |text| == |ToString(|bytes|)| + 1 + |bytes|;
    hide FindFirst, GetNumberIfValid, ToString, TextBytes;
    assert s[c..] == text + rest;
    StringPieces(bytes, rest);
    WrittenNumberIsRead(|bytes|);
  }

  lemma ReadStringIsText(s: seq<byte>, c: nat)
    requires c <= |s| && ParseString(s, c).Success?
    ensures var r := ParseString(s, c);
            |r.value| <= INT64_MAX && r.next == c + |TextBytes(r.value)| && Reads(s, c, TextBytes(r.value))
  {
    var view := s[c..];
    var separator := FindFirst(view, COLON);
    var length := view[..separator];
    var n := GetNumberIfValid(length).value;
    NumberIsCanonical(length, n);
    var bytes := view[separator + 1..separator + 1 + n];
    assert view[..separator + 1 + n] == length + [COLON] + bytes;
  }

  lemma IntegerIsRead(s: seq<byte>, c: nat, n: int)
    requires Reads(s, c, Unparse(Number(n))) && IsInt64(n)
    ensures c <= |s| && ParseInteger(s, c) == Success(n, c + |Unparse(Number(n))|)
  {
    var token, numeral := Unparse(Number(n)), ToString(n);
    var rest := s[c + 1..];
    assert s[c] == s[c..c + |token|][0];
    assert token == [INTEGER] + (numeral + [DELIMITER]);
    ReadsSplit(s, c, [INTEGER], numeral + [DELIMITER]);
    ReadsSplit(s, c + 1, numeral, [DELIMITER]);
    assert rest[..|numeral|] == s[c + 1..c + 1 + |numeral|];
    assert rest[|numeral|] == s[c + 1 + |numeral|..c + 1 + |numeral| + 1][0];
    DigitsAreNotColon(n);
    FindFirstAt(rest, |numeral|, DELIMITER);
    WrittenNumberIsRead(n);
  }

  lemma ReadIntegerIsNumber(s: seq<byte>, c: nat)
    requires c <= |s| && ParseInteger(s, c).Success?
    ensures var r := ParseInteger(s, c);
            IsInt64(r.value) && r.next == c + |Unparse(Number(r.value))| && Reads(s, c, Unparse(Number(r.value)))
  {
    var rest := s[c + 1..];
    var end := FindFirst(rest, DELIMITER);
    var n := GetNumberIfValid(rest[..end]).value;
    NumberIsCanonical(rest[..end], n);
    assert s[c..c + 1 + end + 1] == [INTEGER] + rest[..end] + [DELIMITER];
  }

  /** The first byte tells the kinds of values, and the end of a container, apart. */
  lemma FirstByte(t: Tree)
    ensures var b := Unparse(t)[0];
            && (b == INTEGER <==> t.Number?) && (b == LIST <==> t.Items?) && (b == DICTIONARY <==> t.Pairs?)
            && b != DELIMITER
  {
    if t.Text? { DigitsAreNotColon(|t.bytes|); }
  }

  lemma TextFirstByte(bytes: seq<byte>)
    ensures IsDigit(TextBytes(bytes)[0])
  {
    DigitsAreNotColon(|bytes|);
  }

  // Windows.

  lemma ReadsSplit(s: seq<byte>, c: nat, a: seq<byte>, b: seq<byte>)
    requires Reads(s, c, a + b)
    ensures Reads(s, c, a) && Reads(s, c + |a|, b)
  {
    var w := s[c..c + |a + b|];
    assert w[..|a|] == a && w[|a|..] == b;
  }

  lemma ReadsJoin(s: seq<byte>, c: nat, a: seq<byte>, b: seq<byte>)
    requires Reads(s, c, a) && Reads(s, c + |a|, b)
    ensures Reads(s, c, a + b)
  {
    assert s[c..c + |a + b|] == s[c..c + |a|] + s[c + |a|..c + |a| + |b|];
  }

  // One unfolding of the mutually recursive definitions.

  lemma UnparseItemsOnce(items: seq<Tree>)
    requires items != []
    ensures UnparseItems(items) + [DELIMITER] == Unparse(items[0]) + (UnparseItems(items[1..]) + [DELIMITER])
    ensures |UnparseItems(items)| == |Unparse(items[0])| + |UnparseItems(items[1..])|
  {
    hide Unparse;
  }

  lemma UnparsePairsOnce(pairs: seq<Keyed<Tree>>)
    requires pairs != []
    ensures UnparsePairs(pairs) + [DELIMITER]
         == TextBytes(pairs[0].key) + (Unparse(pairs[0].value) + (UnparsePairs(pairs[1..]) + [DELIMITER]))
    ensures |UnparsePairs(pairs)| == |TextBytes(pairs[0].key)| + |Unparse(pairs[0].value)| + |UnparsePairs(pairs[1..])|
  {
    var key, first, rest := TextBytes(pairs[0].key), Unparse(pairs[0].value), UnparsePairs(pairs[1..]);
    assert UnparsePairs(pairs) == key + first + rest;
    hide Unparse, TextBytes, UnparsePairs;
    Rebracket(key, first, rest, [DELIMITER]);
  }

  lemma Rebracket(a: seq<byte>, b: seq<byte>, c: seq<byte>, d: seq<byte>)
    ensures a + b + c + d == a + (b + (c + d))
  {
  }

  lemma DataOfItemsOnce(items: seq<Tree>, at: nat, before: seq<Data>)
    requires items != []
    ensures before + DataOfItems(items, at)
         == before + [DataOf(items[0], at)] + DataOfItems(items[1..], at + |Unparse(items[0])|)
  {
    hide DataOf, Unparse;
  }

  lemma ParseItemsOnce(s: seq<byte>, c: nat, items: seq<Data>)
    requires c < |s|
    ensures ParseItems(s, c, items) ==
      if s[c] == DELIMITER then Success(items, c + 1)
      else if ParseAny(s, c).Failure? then Failure
      else ParseItems(s, ParseAny(s, c).next, items + [ParseAny(s, c).value])
  {
    hide ParseAny;
  }

  lemma ParsePairsOnce(s: seq<byte>, c: nat, m: seq<Keyed<Data>>)
    requires c < |s| && s[c] != DELIMITER
    ensures ParsePairs(s, c, m) ==
      if ParseString(s, c).Failure? then Failure
      else
        var key := ParseString(s, c);
        var value := ParseAny(s, key.next);
        if value.Failure? || HasKey(m, key.value) then Failure
        else ParsePairs(s, value.next, Put(m, Keyed(key.value, value.value)))
  {
    hide ParseAny, ParseString, Put, HasKey;
  }

  lemma ParsePairsEnd(s: seq<byte>, c: nat, m: seq<Keyed<Data>>)
    requires c < |s| && s[c] == DELIMITER
    ensures ParsePairs(s, c, m) == Success(m, c + 1)
  {
  }

  lemma ParseAnyOnce(s: seq<byte>, c: nat)
    requires c < |s|
    ensures ParseAny(s, c) ==
      if s[c] == INTEGER then
        match ParseInteger(s, c) case Failure => Failure case Success(n, next) => Success(Data(Integer(n), c, next - c), next)
      else if s[c] == LIST then
        match ParseItems(s, c + 1, []) case Failure => Failure
        case Success(items, next) => Success(Data(List(items), c, next - c), next)
      else if s[c] == DICTIONARY then
        match ParsePairs(s, c + 1, []) case Failure => Failure
        case Success(entries, next) => Success(Data(Dictionary(entries), c, next - c), next)
      else
        match ParseString(s, c) case Failure => Failure
        case Success(bytes, next) => Success(Data(String(bytes), c, next - c), next)
  {
    hide ParseInteger, ParseString;
  }

  lemma UnparseContainer(t: Tree)
    ensures t.Items? ==> Unparse(t) == [LIST] + (UnparseItems(t.items) + [DELIMITER])
    ensures t.Pairs? ==> Unparse(t) == [DICTIONARY] + (UnparsePairs(t.pairs) + [DELIMITER])
  {
  }

  // Everything the grammar derives is accepted.

  lemma DataOfOnce(t: Tree, at: nat)
    ensures DataOf(t, at) == Data(
      match t
      case Number(n) => Integer(n)
      case Text(bytes) => String(bytes)
      case Items(items) => List([] + DataOfItems(items, at + 1))
      case Pairs(pairs) => Dictionary(DataOfPairs([], pairs, at + 1)),
      at, |Unparse(t)|)
  {
    hide Unparse;
    if t.Items? { assert [] + DataOfItems(t.items, at + 1) == DataOfItems(t.items, at + 1); }
  }

  lemma WellFormedOnce(t: Tree)
    requires WellFormed(t)
    ensures t.Number? ==> IsInt64(t.n)
    ensures t.Text? ==> |t.bytes| <= INT64_MAX
    ensures t.Items? ==> forall k :: 0 <= k < |t.items| ==> WellFormed(t.items[k])
    ensures t.Pairs? ==> UniqueKeys(t.pairs) && AllWellFormed(t.pairs)
  {
  }

  lemma {:induction false} TreeIsRead(s: seq<byte>, c: nat, t: Tree)
    requires WellFormed(t) && Reads(s, c, Unparse(t))
    ensures c <= |s| && ParseAny(s, c) == Success(DataOf(t, c), c + |Unparse(t)|)
    decreases t, 1
  {
    hide ParseAny, ParseItems, ParsePairs, ParseInteger, ParseString, Reads, DataOf, DataOfItems, DataOfPairs,
         WellFormed, TextBytes;
    FirstByte(t);
    ReadsFirst(s, c, Unparse(t));
    ParseAnyOnce(s, c);
    UnparseContainer(t);
    DataOfOnce(t, c);
    WellFormedOnce(t);
    match t
    case Number(n) => IntegerIsRead(s, c, n);
    case Text(bytes) => StringIsRead(s, c, bytes);
    case Items(items) =>
      hide Unparse, UnparseItems;
      ReadsSplit(s, c, [LIST], UnparseItems(items) + [DELIMITER]);
      ItemsAreRead(s, c + 1, items, []);
    case Pairs(pairs) =>
      hide Unparse, UnparsePairs;
      ReadsSplit(s, c, [DICTIONARY], UnparsePairs(pairs) + [DELIMITER]);
      PairsAreRead(s, c + 1, pairs, []);
  }

  lemma ReadsFirst(s: seq<byte>, c: nat, part: seq<byte>)
    requires Reads(s, c, part) && part != []
    ensures c < |s| && s[c] == part[0]
  {
    assert s[c] == s[c..c + |part|][0];
  }

  lemma {:induction false} ItemsAreRead(s: seq<byte>, c: nat, items: seq<Tree>, before: seq<Data>)
    requires forall k :: 0 <= k < |items| ==> WellFormed(items[k])
    requires Reads(s, c, UnparseItems(items) + [DELIMITER])
    ensures c <= |s| &&
      ParseItems(s, c, before) == Success(before + DataOfItems(items, c), c + |UnparseItems(items)| + 1)
    decreases items, 0
  {
    hide ParseAny, ParseItems, Reads, Unparse, UnparseItems, DataOf, WellFormed;
    if items == [] {
      NothingLeft(s, c, before);
    } else {
      var first, rest := Unparse(items[0]), UnparseItems(items[1..]);
      UnparseItemsOnce(items);
      ReadsSplit(s, c, first, rest + [DELIMITER]);
      ReadsFirst(s, c, first);
      FirstByte(items[0]);
      TreeIsRead(s, c, items[0]);
      ParseItemsOnce(s, c, before);
      ItemsAreRead(s, c + |first|, items[1..], before + [DataOf(items[0], c)]);
      hide DataOfItems;
      DataOfItemsOnce(items, c, before);
    }
  }

  lemma NothingLeft(s: seq<byte>, c: nat, before: seq<Data>)
    requires Reads(s, c, UnparseItems([]) + [DELIMITER])
    ensures UnparseItems([]) == [] && c < |s|
    ensures ParseItems(s, c, before) == Success(before + DataOfItems([], c), c + 1)
  {
    assert UnparseItems([]) + [DELIMITER] == [DELIMITER];
    ReadsFirst(s, c, [DELIMITER]);
    assert before + [] == before;
  }

  lemma NoPairsLeft(s: seq<byte>, c: nat, m: seq<Keyed<Data>>)
    requires Reads(s, c, UnparsePairs([]) + [DELIMITER])
    ensures UnparsePairs([]) == [] && c < |s|
    ensures ParsePairs(s, c, m) == Success(DataOfPairs(m, [], c), c + 1)
  {
    assert UnparsePairs([]) + [DELIMITER] == [DELIMITER];
    ReadsFirst(s, c, [DELIMITER]);
  }

  /** No key of `pairs` is in `m`. */
  ghost predicate NewKeys(m: seq<Keyed<Data>>, pairs: seq<Keyed<Tree>>) {
    forall k :: 0 <= k < |pairs| ==> !HasKey(m, pairs[k].key)
  }

  lemma {:induction false} PutKeys<V>(m: seq<Keyed<V>>, e: Keyed<V>, key: seq<byte>)
    ensures HasKey(Put(m, e), key) <==> HasKey(m, key) || e.key == key
  {
    hide Less;
    var r := Put(m, e);
    if m == [] || Less(e.key, m[0].key) {
      if e.key == key { assert r[0].key == key; }
      if k :| 0 <= k < |m| && m[k].key == key { assert r[k + 1].key == key; }
    } else {
      PutKeys(m[1..], e, key);
      var tail := Put(m[1..], e);
      if HasKey(m, key) {
        var k :| 0 <= k < |m| && m[k].key == key;
        if k == 0 { assert r[0].key == key; } else { assert m[1..][k - 1].key == key; }
      }
      if k :| 0 <= k < |tail| && tail[k].key == key { assert r[k + 1].key == key; }
      if HasKey(m[1..], key) {
        var k :| 0 <= k < |m[1..]| && m[1..][k].key == key;
        assert m[k + 1].key == key;
      }
    }
  }

  lemma StillNew(m: seq<Keyed<Data>>, e: Keyed<Data>, pairs: seq<Keyed<Tree>>)
    requires pairs != [] && UniqueKeys(pairs) && NewKeys(m, pairs) && e.key == pairs[0].key
    ensures !HasKey(m, e.key) && UniqueKeys(pairs[1..]) && NewKeys(Put(m, e), pairs[1..])
  {
    forall k | 0 <= k < |pairs[1..]| ensures !HasKey(Put(m, e), pairs[1..][k].key) {
      PutKeys(m, e, pairs[k + 1].key);
    }
  }

  ghost predicate AllWellFormed(pairs: seq<Keyed<Tree>>) {
    forall k :: 0 <= k < |pairs| ==> |pairs[k].key| <= INT64_MAX && WellFormed(pairs[k].value)
  }

  lemma {:induction false} PairsAreRead(s: seq<byte>, c: nat, pairs: seq<Keyed<Tree>>, m: seq<Keyed<Data>>)
    requires UniqueKeys(pairs) && NewKeys(m, pairs) && AllWellFormed(pairs)
    requires Reads(s, c, UnparsePairs(pairs) + [DELIMITER])
    ensures c <= |s| &&
      ParsePairs(s, c, m) == Success(DataOfPairs(m, pairs, c), c + |UnparsePairs(pairs)| + 1)
    decreases pairs, 0
  {
    hide ParseAny, ParseString, ParsePairs, Reads, Unparse, UnparsePairs, TextBytes, DataOf, WellFormed, NewKeys,
         UniqueKeys, Put, HasKey;
    if pairs == [] {
      NoPairsLeft(s, c, m);
    } else {
      var key, first, rest := TextBytes(pairs[0].key), Unparse(pairs[0].value), UnparsePairs(pairs[1..]);
      var c' := c + |key|;
      UnparsePairsOnce(pairs);
      ReadsSplit(s, c, key, first + (rest + [DELIMITER]));
      ReadsSplit(s, c', first, rest + [DELIMITER]);
      TextFirstByte(pairs[0].key);
      ReadsFirst(s, c, key);
      StringIsRead(s, c, pairs[0].key);
      TreeIsRead(s, c', pairs[0].value);
      ParsePairsOnce(s, c, m);
      var e := Keyed(pairs[0].key, DataOf(pairs[0].value, c'));
      StillNew(m, e, pairs);
      PairsAreRead(s, c' + |first|, pairs[1..], Put(m, e));
    }
  }

  // Everything that is accepted is derived by the grammar.

  /** `t` is what the decoder read at `c`. */
  ghost predicate IsRead(s: seq<byte>, c: nat, t: Tree) {
    && WellFormed(t) && Reads(s, c, Unparse(t)) && c <= |s|
    && ParseAny(s, c) == Success(DataOf(t, c), c + |Unparse(t)|)
  }

  ghost predicate AreItems(s: seq<byte>, c: nat, before: seq<Data>, items: seq<Tree>) {
    && (forall k :: 0 <= k < |items| ==> WellFormed(items[k]))
    && Reads(s, c, UnparseItems(items) + [DELIMITER]) && c <= |s|
    && ParseItems(s, c, before) == Success(before + DataOfItems(items, c), c + |UnparseItems(items)| + 1)
  }

  ghost predicate ArePairs(s: seq<byte>, c: nat, m: seq<Keyed<Data>>, pairs: seq<Keyed<Tree>>) {
    && UniqueKeys(pairs) && NewKeys(m, pairs) && AllWellFormed(pairs)
    && Reads(s, c, UnparsePairs(pairs) + [DELIMITER]) && c <= |s|
    && ParsePairs(s, c, m) == Success(DataOfPairs(m, pairs, c), c + |UnparsePairs(pairs)| + 1)
  }

  lemma TokenIsRead(s: seq<byte>, c: nat, t: Tree)
    requires c < |s| && ParseAny(s, c).Success? && s[c] != LIST && s[c] != DICTIONARY
    requires t == if s[c] == INTEGER && ParseInteger(s, c).Success? then Number(ParseInteger(s, c).value)
                  else if ParseString(s, c).Success? then Text(ParseString(s, c).value) else Items([])
    ensures IsRead(s, c, t)
  {
    hide ParseAny, ParseInteger, ParseString, Reads, TextBytes;
    ParseAnyOnce(s, c);
    if s[c] == INTEGER { ReadIntegerIsNumber(s, c); } else { ReadStringIsText(s, c); }
  }

  lemma ItemsAreWellFormed(items: seq<Tree>)
    requires forall k :: 0 <= k < |items| ==> WellFormed(items[k])
    ensures WellFormed(Items(items))
  {
  }

  lemma PairsAreWellFormed(pairs: seq<Keyed<Tree>>)
    ensures UniqueKeys(pairs) && AllWellFormed(pairs) ==> WellFormed(Pairs(pairs))
  {
  }

  lemma ListIsRead(s: seq<byte>, c: nat, items: seq<Tree>)
    requires c < |s| && s[c] == LIST && AreItems(s, c + 1, [], items)
    ensures IsRead(s, c, Items(items))
  {
    assert Reads(s, c, [LIST]);
    hide ParseAny, ParseItems, Reads, DataOf, DataOfItems, Unparse, UnparseItems, WellFormed;
    ItemsAreWellFormed(items);
    ParseAnyOnce(s, c);
    DataOfOnce(Items(items), c);
    UnparseContainer(Items(items));
    ReadsJoin(s, c, [LIST], UnparseItems(items) + [DELIMITER]);
  }

  lemma DictionaryIsRead(s: seq<byte>, c: nat, pairs: seq<Keyed<Tree>>)
    requires c < |s| && s[c] == DICTIONARY && ArePairs(s, c + 1, [], pairs)
    ensures IsRead(s, c, Pairs(pairs))
  {
    assert Reads(s, c, [DICTIONARY]);
    hide ParseAny, ParsePairs, Reads, DataOf, DataOfPairs, Unparse, UnparsePairs, WellFormed, UniqueKeys, NewKeys;
    PairsAreWellFormed(pairs);
    ParseAnyOnce(s, c);
    DataOfOnce(Pairs(pairs), c);
    UnparseContainer(Pairs(pairs));
    ReadsJoin(s, c, [DICTIONARY], UnparsePairs(pairs) + [DELIMITER]);
  }

  lemma MoreItems(s: seq<byte>, c: nat, before: seq<Data>, t: Tree, rest: seq<Tree>)
    requires c < |s| && s[c] != DELIMITER && IsRead(s, c, t)
    requires AreItems(s, c + |Unparse(t)|, before + [DataOf(t, c)], rest)
    ensures AreItems(s, c, before, [t] + rest)
  {
    hide ParseAny, ParseItems, Unparse, UnparseItems, DataOf, DataOfItems, WellFormed, Reads;
    var items := [t] + rest;
    assert items[1..] == rest && items[0] == t;
    UnparseItemsOnce(items);
    ParseItemsOnce(s, c, before);
    DataOfItemsOnce(items, c, before);
    ReadsJoin(s, c, Unparse(t), UnparseItems(rest) + [DELIMITER]);
  }

  lemma MorePairsReads(s: seq<byte>, c: nat, key: seq<byte>, t: Tree, rest: seq<Keyed<Tree>>)
    requires Reads(s, c, TextBytes(key)) && Reads(s, c + |TextBytes(key)|, Unparse(t))
    requires Reads(s, c + |TextBytes(key)| + |Unparse(t)|, UnparsePairs(rest) + [DELIMITER])
    ensures var pairs := [Keyed(key, t)] + rest;
            && Reads(s, c, UnparsePairs(pairs) + [DELIMITER])
            && |UnparsePairs(pairs)| == |TextBytes(key)| + |Unparse(t)| + |UnparsePairs(rest)|
  {
    hide Unparse, UnparsePairs, TextBytes, Reads;
    var pairs := [Keyed(key, t)] + rest;
    assert pairs[1..] == rest && pairs[0] == Keyed(key, t);
    UnparsePairsOnce(pairs);
    ReadsJoin(s, c + |TextBytes(key)|, Unparse(t), UnparsePairs(rest) + [DELIMITER]);
    ReadsJoin(s, c, TextBytes(key), Unparse(t) + (UnparsePairs(rest) + [DELIMITER]));
  }

  lemma MorePairsKeys(m: seq<Keyed<Data>>, e: Keyed<Data>, t: Tree, rest: seq<Keyed<Tree>>)
    requires |e.key| <= INT64_MAX && !HasKey(m, e.key) && WellFormed(t)
    requires UniqueKeys(rest) && NewKeys(Put(m, e), rest) && AllWellFormed(rest)
    ensures var pairs := [Keyed(e.key, t)] + rest; UniqueKeys(pairs) && NewKeys(m, pairs) && AllWellFormed(pairs)
  {
    hide WellFormed, Put, HasKey;
    NewAgain(m, e, rest);
  }

  lemma MorePairs(s: seq<byte>, c: nat, m: seq<Keyed<Data>>, key: seq<byte>, t: Tree, rest: seq<Keyed<Tree>>)
    requires c < |s| && s[c] != DELIMITER && |key| <= INT64_MAX && !HasKey(m, key)
    requires Reads(s, c, TextBytes(key)) && ParseString(s, c) == Success(key, c + |TextBytes(key)|)
    requires IsRead(s, c + |TextBytes(key)|, t)
    requires ArePairs(s, c + |TextBytes(key)| + |Unparse(t)|, Put(m, Keyed(key, DataOf(t, c + |TextBytes(key)|))), rest)
    ensures ArePairs(s, c, m, [Keyed(key, t)] + rest)
  {
    hide ParseAny, ParsePairs, ParseString, Unparse, UnparsePairs, TextBytes, DataOf, DataOfPairs, WellFormed, Reads, Put,
         HasKey, UniqueKeys, NewKeys, AllWellFormed;
    var pairs := [Keyed(key, t)] + rest;
    var c' := c + |TextBytes(key)|;
    assert pairs[1..] == rest && pairs[0] == Keyed(key, t);
    ParsePairsOnce(s, c, m);
    DataOfPairsOnce(m, pairs, c);
    MorePairsKeys(m, Keyed(key, DataOf(t, c')), t, rest);
    MorePairsReads(s, c, key, t, rest);
  }

  lemma DataOfPairsOnce(m: seq<Keyed<Data>>, pairs: seq<Keyed<Tree>>, at: nat)
    requires pairs != []
    ensures var at' := at + |TextBytes(pairs[0].key)|;
            DataOfPairs(m, pairs, at) ==
            DataOfPairs(Put(m, Keyed(pairs[0].key, DataOf(pairs[0].value, at'))), pairs[1..],
                        at' + |Unparse(pairs[0].value)|)
  {
    hide DataOf, Unparse, TextBytes, Put;
  }

  lemma NewAgain(m: seq<Keyed<Data>>, e: Keyed<Data>, rest: seq<Keyed<Tree>>)
    requires NewKeys(Put(m, e), rest)
    ensures forall k :: 0 <= k < |rest| ==> rest[k].key != e.key && !HasKey(m, rest[k].key)
  {
    forall k | 0 <= k < |rest| ensures rest[k].key != e.key && !HasKey(m, rest[k].key) {
      PutKeys(m, e, rest[k].key);
    }
  }

  lemma {:induction false} ReadIsTree(s: seq<byte>, c: nat) returns (t: Tree)
    requires c <= |s| && ParseAny(s, c).Success?
    ensures IsRead(s, c, t)
    decreases |s| - c, 2
  {
    hide ParseAny, ParseInteger, ParseString, ParseItems, ParsePairs, IsRead, AreItems, ArePairs;
    ParseAnyOnce(s, c);
    if s[c] == LIST {
      var items := ReadIsItems(s, c + 1, []);
      t := Items(items);
      ListIsRead(s, c, items);
    } else if s[c] == DICTIONARY {
      var pairs := ReadIsPairs(s, c + 1, []);
      t := Pairs(pairs);
      DictionaryIsRead(s, c, pairs);
    } else {
      t := if s[c] == INTEGER then Number(ParseInteger(s, c).value) else Text(ParseString(s, c).value);
      TokenIsRead(s, c, t);
    }
  }

  lemma ReadNext(s: seq<byte>, c: nat, t: Tree)
    requires IsRead(s, c, t)
    ensures c <= |s| && ParseAny(s, c) == Success(DataOf(t, c), c + |Unparse(t)|)
  {
  }

  lemma NoItems(s: seq<byte>, c: nat, before: seq<Data>)
    requires c < |s| && s[c] == DELIMITER
    ensures AreItems(s, c, before, [])
  {
    assert UnparseItems([]) + [DELIMITER] == [DELIMITER] == s[c..c + 1];
    NothingLeft(s, c, before);
  }

  lemma NoPairs(s: seq<byte>, c: nat, m: seq<Keyed<Data>>)
    requires c < |s| && s[c] == DELIMITER
    ensures ArePairs(s, c, m, [])
  {
    assert UnparsePairs([]) + [DELIMITER] == [DELIMITER] == s[c..c + 1];
    NoPairsLeft(s, c, m);
  }

  lemma {:induction false} ReadIsItems(s: seq<byte>, c: nat, before: seq<Data>) returns (items: seq<Tree>)
    requires c <= |s| && ParseItems(s, c, before).Success?
    ensures AreItems(s, c, before, items)
    decreases |s| - c, 3
  {
    hide ParseAny, ParseItems, AreItems, IsRead;
    ParseItemsOnce(s, c, before);
    if s[c] == DELIMITER {
      items := [];
      NoItems(s, c, before);
    } else {
      var t := ReadIsTree(s, c);
      ReadNext(s, c, t);
      var rest := ReadIsItems(s, ParseAny(s, c).next, before + [ParseAny(s, c).value]);
      items := [t] + rest;
      MoreItems(s, c, before, t, rest);
    }
  }

  lemma {:induction false} ReadIsPairs(s: seq<byte>, c: nat, m: seq<Keyed<Data>>) returns (pairs: seq<Keyed<Tree>>)
    requires c <= |s| && ParsePairs(s, c, m).Success?
    ensures ArePairs(s, c, m, pairs)
    decreases |s| - c, 3
  {
    hide ParseAny, ParsePairs, ParseString, ArePairs, IsRead, Put, HasKey;
    if s[c] == DELIMITER {
      pairs := [];
      NoPairs(s, c, m);
    } else {
      ParsePairsOnce(s, c, m);
      var key := ParseString(s, c);
      ReadStringIsText(s, c);
      var value := ParseAny(s, key.next);
      var t := ReadIsTree(s, key.next);
      ReadNext(s, key.next, t);
      var rest := ReadIsPairs(s, value.next, Put(m, Keyed(key.value, value.value)));
      pairs := [Keyed(key.value, t)] + rest;
      MorePairs(s, c, m, key.value, t, rest);
    }
  }

  // The decoder and the grammar.

  /** `s` derives from a well-formed tree with value `d`. */
  ghost predicate Derives(s: seq<byte>, d: Data) {
    exists t :: WellFormed(t) && Unparse(t) == s && DataOf(t, 0) == d
  }

  /** The decoder accepts exactly what the grammar derives, and returns exactly the derived value. */
  lemma DecodesExactlyTheGrammar(s: seq<byte>, d: Data)
    ensures Input(s) == Some(d) <==> Derives(s, d)
  {
    if Input(s) == Some(d) {
      var t := ReadIsTree(s, 0);
      assert s[0..|s|] == s;
      assert Unparse(t) == s && DataOf(t, 0) == d;
    }
    if Derives(s, d) {
      var t :| WellFormed(t) && Unparse(t) == s && DataOf(t, 0) == d;
      assert s[0..|s|] == s;
      TreeIsRead(s, 0, t);
    }
  }

  /** An encoding followed by anything at all is read to its own end and no further. */
  lemma StopsAtTheEnd(t: Tree, rest: seq<byte>)
    requires WellFormed(t)
    ensures ParseAny(Unparse(t) + rest, 0) == Success(DataOf(t, 0), |Unparse(t)|)
  {
    var s := Unparse(t) + rest;
    assert s[0..|Unparse(t)|] == Unparse(t);
    TreeIsRead(s, 0, t);
  }

  /** No encoding is a prefix of another. */
  lemma PrefixFree(t: Tree, u: Tree, rest: seq<byte>)
    requires WellFormed(t) && WellFormed(u) && Unparse(t) + rest == Unparse(u)
    ensures rest == []
  {
    StopsAtTheEnd(t, rest);
    StopsAtTheEnd(u, []);
    assert Unparse(u) + [] == Unparse(u);
  }
}
