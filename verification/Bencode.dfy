/** Bencoded values: the grammar of BEP 3, the decoded values with their source spans, and the decoder. */
module Bencode {
  import opened Common
  import opened Decimal

  const INTEGER: byte := 105     // 'i'
  const LIST: byte := 108        // 'l'
  const DICTIONARY: byte := 100  // 'd'
  const DELIMITER: byte := 101   // 'e'
  const COLON: byte := 58        // ':'

  // Maps from byte strings, kept in key order.

  datatype Keyed<+V> = Keyed(key: seq<byte>, value: V)

  /** The order of `std::string` and of `std::map`'s keys. */
  predicate Less(a: seq<byte>, b: seq<byte>) {
    b != [] && (a == [] || a[0] < b[0] || (a[0] == b[0] && Less(a[1..], b[1..])))
  }

  predicate HasKey<V>(m: seq<Keyed<V>>, key: seq<byte>) {
    exists k :: 0 <= k < |m| && m[k].key == key
  }

  /** Insertion at the place of the key. */
  function Put<V>(m: seq<Keyed<V>>, e: Keyed<V>): (r: seq<Keyed<V>>)
    ensures |r| == |m| + 1
  {
    if m == [] || Less(e.key, m[0].key) then [e] + m else [m[0]] + Put(m[1..], e)
  }

  // The grammar, as the trees it derives. The pairs of a dictionary stand in order of appearance.

  datatype Tree =
    | Number(n: int)
    | Text(bytes: seq<byte>)
    | Items(items: seq<Tree>)
    | Pairs(pairs: seq<Keyed<Tree>>)

  ghost predicate WellFormed(t: Tree)
    decreases t
  {
    match t
    case Number(n) => IsInt64(n)
    case Text(bytes) => |bytes| <= INT64_MAX
    case Items(items) => forall k :: 0 <= k < |items| ==> WellFormed(items[k])
    case Pairs(pairs) => UniqueKeys(pairs) && forall k :: 0 <= k < |pairs| ==>
      |pairs[k].key| <= INT64_MAX && WellFormed(pairs[k].value)
  }

  ghost predicate UniqueKeys<V>(m: seq<Keyed<V>>) {
    forall j, k :: 0 <= j < k < |m| ==> m[j].key != m[k].key
  }

  /** A byte string, length first; also what `encoders::string` returns. */
  function TextBytes(bytes: seq<byte>): (s: seq<byte>)
    ensures |s| >= 2
  {
    ToString(|bytes|) + [COLON] + bytes
  }

  /** The bytes a tree derives. */
  function Unparse(t: Tree): (s: seq<byte>)
    ensures s != []
    decreases t, 1
  {
    match t
    case Number(n) => [INTEGER] + ToString(n) + [DELIMITER]
    case Text(bytes) => TextBytes(bytes)
    case Items(items) => [LIST] + UnparseItems(items) + [DELIMITER]
    case Pairs(pairs) => [DICTIONARY] + UnparsePairs(pairs) + [DELIMITER]
  }

  function UnparseItems(items: seq<Tree>): seq<byte>
    decreases items, 0
  {
    if items == [] then [] else Unparse(items[0]) + UnparseItems(items[1..])
  }

  function UnparsePairs(pairs: seq<Keyed<Tree>>): seq<byte>
    decreases pairs, 0
  {
    if pairs == [] then []
    else TextBytes(pairs[0].key) + Unparse(pairs[0].value) + UnparsePairs(pairs[1..])
  }

  // Decoded values. Every node remembers where in the source it came from.

  datatype Data = Data(value: Value, start: nat, size: nat)

  datatype Value =
    | Integer(n: int)
    | String(bytes: seq<byte>)
    | List(items: seq<Data>)
    | Dictionary(entries: seq<Keyed<Data>>)

  /** The value a tree denotes when its bytes start at offset `at`. */
  function DataOf(t: Tree, at: nat): (d: Data)
    ensures d.start == at && d.size == |Unparse(t)|
    decreases t, 1
  {
    var value :=
      match t
      case Number(n) => Integer(n)
      case Text(bytes) => String(bytes)
      case Items(items) => List(DataOfItems(items, at + 1))
      case Pairs(pairs) => Dictionary(DataOfPairs([], pairs, at + 1));
    Data(value, at, |Unparse(t)|)
  }

  function DataOfItems(items: seq<Tree>, at: nat): (r: seq<Data>)
    ensures |r| == |items|
    decreases items, 0
  {
    if items == [] then []
    else [DataOf(items[0], at)] + DataOfItems(items[1..], at + |Unparse(items[0])|)
  }

  function DataOfPairs(m: seq<Keyed<Data>>, pairs: seq<Keyed<Tree>>, at: nat): (r: seq<Keyed<Data>>)
    decreases pairs, 0
  {
    if pairs == [] then m
    else
      var at' := at + |TextBytes(pairs[0].key)|;
      DataOfPairs(Put(m, Keyed(pairs[0].key, DataOf(pairs[0].value, at'))), pairs[1..],
                  at' + |Unparse(pairs[0].value)|)
  }

  // The decoder. `s` is the source and `c` the cursor.

  datatype Parsed<+T> = Failure | Success(value: T, next: nat)

  function FindFirst(s: seq<byte>, b: byte): (k: nat)
    ensures k <= |s| && b !in s[..k] && (k < |s| ==> s[k] == b)
  {
    if s == [] || s[0] == b then 0
    else
      assert s[..1 + FindFirst(s[1..], b)] == [s[0]] + s[1..][..FindFirst(s[1..], b)];
      1 + FindFirst(s[1..], b)
  }

  function ParseString(s: seq<byte>, c: nat): (r: Parsed<seq<byte>>)
    requires c <= |s|
    ensures r.Success? ==> c < r.next <= |s|
  {
    var view := s[c..];
    if |view| < 2 then Failure
    else
      var separator := FindFirst(view, COLON);
      if separator == |view| then Failure
      else
        var length := view[..separator];
        var begin := separator + 1;
        if length != [] && length[0] == MINUS then Failure
        else match GetNumberIfValid(length)
          case None => Failure
          case Some(declared) =>
            if declared < 0 || declared > |view| - begin then Failure
            else Success(view[begin..begin + declared], c + begin + declared)
  }

  function ParseInteger(s: seq<byte>, c: nat): (r: Parsed<int>)
    requires c <= |s|
    ensures r.Success? ==> c < r.next <= |s|
  {
    if c == |s| || s[c] != INTEGER then Failure
    else
      var end := FindFirst(s[c + 1..], DELIMITER);
      if end == |s[c + 1..]| || end == 0 then Failure
      else match GetNumberIfValid(s[c + 1..][..end])
        case None => Failure
        case Some(n) => Success(n, c + 1 + end + 1)
  }

  function Spanned<T>(r: Parsed<T>, c: nat, wrap: T -> Value): (d: Parsed<Data>)
    requires r.Success? ==> c <= r.next
  {
    if r.Failure? then Failure else Success(Data(wrap(r.value), c, r.next - c), r.next)
  }

  function ParseAny(s: seq<byte>, c: nat): (r: Parsed<Data>)
    requires c <= |s|
    ensures r.Success? ==> c < r.next <= |s|
    decreases |s| - c, 2
  {
    if c == |s| then Failure
    else if s[c] == INTEGER then Spanned(ParseInteger(s, c), c, n => Integer(n))
    else if s[c] == LIST then ParseList(s, c)
    else if s[c] == DICTIONARY then ParseDictionary(s, c)
    else Spanned(ParseString(s, c), c, bytes => String(bytes))
  }

  function ParseList(s: seq<byte>, c: nat): (r: Parsed<Data>)
    requires c <= |s|
    ensures r.Success? ==> c < r.next <= |s|
    decreases |s| - c, 1
  {
    if c == |s| || s[c] != LIST then Failure
    else if c + 1 == |s| then Failure
    else Spanned(ParseItems(s, c + 1, []), c, items => List(items))
  }

  function ParseItems(s: seq<byte>, c: nat, items: seq<Data>): (r: Parsed<seq<Data>>)
    requires c <= |s|
    ensures r.Success? ==> c < r.next <= |s|
    decreases |s| - c, 3
  {
    if c == |s| then Failure
    else if s[c] == DELIMITER then Success(items, c + 1)
    else
      var item := ParseAny(s, c);
      if item.Failure? then Failure else ParseItems(s, item.next, items + [item.value])
  }

  function ParseDictionary(s: seq<byte>, c: nat): (r: Parsed<Data>)
    requires c <= |s|
    ensures r.Success? ==> c < r.next <= |s|
    decreases |s| - c, 1
  {
    if c == |s| || s[c] != DICTIONARY then Failure
    else if c + 1 == |s| then Failure
    else Spanned(ParsePairs(s, c + 1, []), c, entries => Dictionary(entries))
  }

  function ParsePairs(s: seq<byte>, c: nat, m: seq<Keyed<Data>>): (r: Parsed<seq<Keyed<Data>>>)
    requires c <= |s|
    ensures r.Success? ==> c < r.next <= |s|
    decreases |s| - c, 3
  {
    if c == |s| then Failure
    else if s[c] == DELIMITER then Success(m, c + 1)
    else
      var key := ParseString(s, c);
      if key.Failure? then Failure
      else
        var value := ParseAny(s, key.next);
        if value.Failure? || HasKey(m, key.value) then Failure
        else ParsePairs(s, value.next, Put(m, Keyed(key.value, value.value)))
  }

  /** The whole input has to be one value. */
  function Input(s: seq<byte>): Option<Data> {
    match ParseAny(s, 0)
    case Failure => None
    case Success(d, next) => if next == |s| then Some(d) else None
  }
}
