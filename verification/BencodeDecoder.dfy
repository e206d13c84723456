/** The decoder over a cursor that moves in place, and the encoders' loops. */
module BencodeDecoder {
  import opened Common
  import opened Decimal
  import opened Bencode
  import opened BencodeGrammar
  import opened BencodeRoundTrip
  import opened KeyOrder

  class Source {
    const source: seq<byte>
    var cursor: nat

    constructor (source: seq<byte>)
      ensures this.source == source && cursor == 0
    {
      this.source := source;
      cursor := 0;
    }

    function Undecoded(): seq<byte>
      requires cursor <= |source|
      reads this
    {
      source[cursor..]
    }

    /** What a decoding method returns, with the cursor behind it. After a failure the cursor means nothing. */
    ghost function Outcome<T>(r: Option<T>): Parsed<T>
      reads this
    {
      match r
      case None => Failure
      case Some(value) => Success(value, cursor)
    }

    method DecodeString() returns (r: Option<seq<byte>>)
      requires cursor <= |source|
      modifies this
      ensures cursor <= |source| && Outcome(r) == ParseString(source, old(cursor))
    {
      hide FindFirst, GetNumberIfValid;
      var view := Undecoded();
      if |view| < 2 { return None; }
      var separator := FindFirst(view, COLON);
      if separator == |view| { return None; }
      var lengthString := view[..separator];
      var begin := separator + 1;
      if lengthString != [] && lengthString[0] == MINUS { return None; }
      var declared := GetNumberIfValid(lengthString);
      if declared == None { return None; }
      if declared.value < 0 || declared.value > |view| - begin { return None; }
      var text := view[begin..begin + declared.value];
      cursor := cursor + begin + declared.value;
      return Some(text);
    }

    method DecodeInteger() returns (r: Option<int>)
      requires cursor <= |source|
      modifies this
      ensures cursor <= |source| && Outcome(r) == ParseInteger(source, old(cursor))
    {
      hide FindFirst, GetNumberIfValid;
      if Undecoded() == [] || Undecoded()[0] != INTEGER { return None; }
      cursor := cursor + 1;
      var end := FindFirst(Undecoded(), DELIMITER);
      if end == |Undecoded()| { return None; }
      if end == 0 { return None; }
      var number := GetNumberIfValid(Undecoded()[..end]);
      if number == None { return None; }
      cursor := cursor + end + 1;
      return number;
    }

    method DecodeAny() returns (r: Option<Data>)
      requires cursor <= |source|
      modifies this
      ensures cursor <= |source| && Outcome(r) == ParseAny(source, old(cursor))
      decreases |source| - cursor, 2
    {
      hide ParseString, ParseInteger, ParseList, ParseDictionary;
      var begin := cursor;
      if Undecoded() == [] { return None; }
      var first := Undecoded()[0];
      if first == INTEGER {
        var n := DecodeInteger();
        return if n == None then None else Some(Data(Integer(n.value), begin, cursor - begin));
      } else if first == LIST {
        r := DecodeList();
      } else if first == DICTIONARY {
        r := DecodeDictionary();
      } else {
        var text := DecodeString();
        return if text == None then None else Some(Data(String(text.value), begin, cursor - begin));
      }
    }

    method DecodeList() returns (r: Option<Data>)
      requires cursor <= |source|
      modifies this
      ensures cursor <= |source| && Outcome(r) == ParseList(source, old(cursor))
      decreases |source| - cursor, 1
    {
      hide ParseAny, ParseItems;
      if Undecoded() == [] || Undecoded()[0] != LIST { return None; }
      var begin := cursor;
      cursor := cursor + 1;
      if Undecoded() == [] { return None; }
      var list: seq<Data> := [];
      while Undecoded() != [] && Undecoded()[0] != DELIMITER
        invariant begin < cursor <= |source|
        invariant ParseItems(source, cursor, list) == ParseItems(source, begin + 1, [])
        decreases |source| - cursor
      {
        ParseItemsOnce(source, cursor, list);
        var item := DecodeAny();
        if item == None { return None; }
        list := list + [item.value];
      }
      if Undecoded() == [] {
        NothingToParse(source, list, []);
        return None;
      }
      ParseItemsOnce(source, cursor, list);
      cursor := cursor + 1;
      return Some(Data(List(list), begin, cursor - begin));
    }

    method DecodeDictionary() returns (r: Option<Data>)
      requires cursor <= |source|
      modifies this
      ensures cursor <= |source| && Outcome(r) == ParseDictionary(source, old(cursor))
      decreases |source| - cursor, 1
    {
      hide ParseAny, ParsePairs, ParseString, Put;
      if Undecoded() == [] || Undecoded()[0] != DICTIONARY { return None; }
      var begin := cursor;
      cursor := cursor + 1;
      if Undecoded() == [] { return None; }
      var dictionary: seq<Keyed<Data>> := [];
      while Undecoded() != [] && Undecoded()[0] != DELIMITER
        invariant begin < cursor <= |source|
        invariant ParsePairs(source, cursor, dictionary) == ParsePairs(source, begin + 1, [])
        decreases |source| - cursor
      {
        ParsePairsOnce(source, cursor, dictionary);
        var key := DecodeString();
        if key == None { return None; }
        var value := DecodeAny();
        if value == None { return None; }
        if HasKey(dictionary, key.value) { return None; }
        dictionary := Put(dictionary, Keyed(key.value, value.value));
      }
      if Undecoded() == [] {
        NothingToParse(source, [], dictionary);
        return None;
      }
      ParsePairsEnd(source, cursor, dictionary);
      cursor := cursor + 1;
      return Some(Data(Dictionary(dictionary), begin, cursor - begin));
    }
  }

  lemma NothingToParse(s: seq<byte>, items: seq<Data>, m: seq<Keyed<Data>>)
    ensures ParseItems(s, |s|, items) == Failure && ParsePairs(s, |s|, m) == Failure
  {
  }

  method DecodeInput(undecoded: seq<byte>) returns (r: Option<Data>)
    ensures r == Input(undecoded)
    ensures forall d :: r == Some(d) <==> Derives(undecoded, d)
  {
    hide ParseAny, Derives;
    var source := new Source(undecoded);
    r := source.DecodeAny();
    if r.Some? && source.cursor != |undecoded| {
      r := None;
    }
    forall d ensures r == Some(d) <==> Derives(undecoded, d) {
      DecodesExactlyTheGrammar(undecoded, d);
    }
  }

  // Encoders.

  method ListEncoder(items: seq<seq<byte>>) returns (r: seq<byte>)
    ensures r == EncodeList(items)
  {
    r := [LIST];
    var k := 0;
    while k < |items|
      invariant 0 <= k <= |items|
      invariant r + Concatenated(items[k..]) == [LIST] + Concatenated(items)
    {
      assert items[k..][1..] == items[k + 1..];
      assert r + (items[k] + Concatenated(items[k + 1..])) == r + items[k] + Concatenated(items[k + 1..]);
      r := r + items[k];
      k := k + 1;
    }
    assert items[k..] == [] && r + [] == r;
    r := r + [DELIMITER];
  }

  /** The pairs in key order. */
  method SortPairs(pairs: seq<Keyed<seq<byte>>>) returns (sorted: seq<Keyed<seq<byte>>>)
    ensures sorted == SortByKey(pairs)
  {
    sorted := [];
    var k := 0;
    while k < |pairs|
      invariant 0 <= k <= |pairs|
      invariant SortInto(sorted, pairs[k..]) == SortByKey(pairs)
    {
      assert pairs[k..][1..] == pairs[k + 1..];
      sorted := Put(sorted, pairs[k]);
      k := k + 1;
    }
  }

  method DictionaryEncoder(items: seq<Keyed<seq<byte>>>) returns (r: seq<byte>)
    ensures r == EncodeDictionary(items)
  {
    var pairs := SortPairs(items);
    r := [DICTIONARY];
    var k := 0;
    while k < |pairs|
      invariant 0 <= k <= |pairs|
      invariant r + ConcatenatedPairs(pairs[k..]) == [DICTIONARY] + ConcatenatedPairs(pairs)
    {
      assert pairs[k..][1..] == pairs[k + 1..];
      var pair := TextBytes(pairs[k].key) + pairs[k].value;
      assert r + (pair + ConcatenatedPairs(pairs[k + 1..])) == r + pair + ConcatenatedPairs(pairs[k + 1..]);
      r := r + pair;
      k := k + 1;
    }
    assert pairs[k..] == [] && r + [] == r;
    r := r + [DELIMITER];
  }
}
