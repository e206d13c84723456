/** The bitset class: packed words updated in place, and the stateful iterator over the set bits. */
module DynamicBitset {
  import opened Common
  import opened BitWords
  import opened WordBits
  import opened Bitset
  import opened BitsetPayload

  /** `npos`. */
  const NPOS: word := WORD_MAX

  datatype BitfieldIndex = BitfieldIndex(wordIndex: nat, index: nat)

  function GetIndex(index: nat): BitfieldIndex {
    BitfieldIndex(index / 64, 63 - LowSix(index))
  }

  lemma SliceJoin(s: seq<byte>, i: nat, j: nat, k: nat)
    requires i <= j <= k <= |s|
    ensures s[i..j] + s[j..k] == s[i..k]
  {
  }

  lemma DropMore(s: seq<byte>, t: seq<byte>, i: nat, n: nat)
    requires |s| == |t| && i + n <= |s| && s[i..] == t[i..]
    ensures s[i + n..] == t[i + n..]
  {
    assert s[i + n..] == s[i..][n..];
    assert t[i + n..] == t[i..][n..];
  }

  function Sum(chunks: seq<nat>): nat {
    if chunks == [] then 0 else Sum(chunks[..|chunks| - 1]) + chunks[|chunks| - 1]
  }

  class DynamicBitset {
    const bitfield: array<word>
    const length: word

    ghost predicate Valid()
      reads bitfield
    {
      bitfield.Length == WordsLength(length) && Padded(bitfield[..], length)
    }

    ghost function Flags(): seq<bool>
      reads bitfield
    {
      FlagsOf(bitfield[..], length)
    }

    constructor (count: word)
      ensures Valid() && fresh(bitfield) && length == count
      ensures Flags() == seq(count, _ => false)
    {
      length := count;
      var words := new word[WordsLength(count)](_ => 0);
      bitfield := words;
      new;
      forall i | 0 <= i < 64 * bitfield.Length
        ensures !Held(bitfield[..], i)
      {
        ZeroHasNoBits(63 - i % 64);
      }
    }

    constructor Copy(other: DynamicBitset)
      requires other.Valid()
      ensures Valid() && fresh(bitfield) && length == other.length
      ensures Flags() == other.Flags()
    {
      length := other.length;
      var words := new word[other.bitfield.Length](k requires 0 <= k < other.bitfield.Length reads other.bitfield =>
        other.bitfield[k]);
      bitfield := words;
      new;
      assert bitfield[..] == other.bitfield[..];
    }

    method Test(index: nat) returns (r: bool)
      requires Valid()
      ensures r == (index < length && Flags()[index])
    {
      if index >= length { return false; }
      var bit := GetIndex(index);
      SingleBit(bitfield[bit.wordIndex], bit.index);
      r := AndWords(bitfield[bit.wordIndex], Unit(bit.index)) != 0;
    }

    method Set(index: nat)
      requires Valid()
      modifies bitfield
      ensures Valid()
      ensures Flags() == if index < length then old(Flags())[index := true] else old(Flags())
    {
      if index >= length { return; }
      var bit := GetIndex(index);
      bitfield[bit.wordIndex] := OrWords(bitfield[bit.wordIndex], Unit(bit.index));
      ghost var before := old(bitfield[..]);
      assert bitfield[..] == before[index / 64 := OrWords(before[index / 64], Unit(63 - index % 64))];
      forall i: nat
        ensures Held(bitfield[..], i) == (Held(before, i) || i == index)
      {
        SetWord(before, index, i);
      }
    }

    method Reset(index: nat)
      requires Valid()
      modifies bitfield
      ensures Valid()
      ensures Flags() == if index < length then old(Flags())[index := false] else old(Flags())
    {
      if index >= length { return; }
      var bit := GetIndex(index);
      bitfield[bit.wordIndex] := AndWords(bitfield[bit.wordIndex], Not(Unit(bit.index)));
      ghost var before := old(bitfield[..]);
      assert bitfield[..] == before[index / 64 := AndWords(before[index / 64], Not(Unit(63 - index % 64)))];
      forall i: nat
        ensures Held(bitfield[..], i) == (Held(before, i) && i != index)
      {
        ResetWord(before, index, i);
      }
    }

    method Clear()
      modifies bitfield
      requires Valid()
      ensures Valid()
      ensures Flags() == seq(length, _ => false)
    {
      for k := 0 to bitfield.Length
        invariant forall j :: 0 <= j < k ==> bitfield[j] == 0
      {
        bitfield[k] := 0;
      }
      forall i | 0 <= i < 64 * bitfield.Length
        ensures !Held(bitfield[..], i)
      {
        ZeroHasNoBits(63 - i % 64);
      }
    }

    /** `operator|=`, also of a set with itself. */
    method OrAssign(other: DynamicBitset)
      requires Valid() && other.Valid() && length == other.length
      modifies bitfield
      ensures Valid()
      ensures Flags() == Either(old(Flags()), old(other.Flags()))
    {
      ghost var mine, theirs := bitfield[..], other.bitfield[..];
      for k := 0 to bitfield.Length
        invariant forall j :: 0 <= j < k ==> bitfield[j] == OrWords(mine[j], theirs[j])
        invariant forall j :: k <= j < bitfield.Length ==> bitfield[j] == mine[j] && other.bitfield[j] == theirs[j]
      {
        bitfield[k] := OrWords(bitfield[k], other.bitfield[k]);
      }
      forall i | 0 <= i < 64 * bitfield.Length
        ensures Held(bitfield[..], i) == (Held(mine, i) || Held(theirs, i))
      {
        BitOfOr(mine[i / 64], theirs[i / 64], 63 - i % 64);
      }
    }

    method AndAssign(other: DynamicBitset)
      requires Valid() && other.Valid() && length == other.length
      modifies bitfield
      ensures Valid()
      ensures Flags() == Both(old(Flags()), old(other.Flags()))
    {
      ghost var mine, theirs := bitfield[..], other.bitfield[..];
      for k := 0 to bitfield.Length
        invariant forall j :: 0 <= j < k ==> bitfield[j] == AndWords(mine[j], theirs[j])
        invariant forall j :: k <= j < bitfield.Length ==> bitfield[j] == mine[j] && other.bitfield[j] == theirs[j]
      {
        bitfield[k] := AndWords(bitfield[k], other.bitfield[k]);
      }
      forall i | 0 <= i < 64 * bitfield.Length
        ensures Held(bitfield[..], i) == (Held(mine, i) && Held(theirs, i))
      {
        BitOfAnd(mine[i / 64], theirs[i / 64], 63 - i % 64);
      }
    }

    /** `operator|`. */
    method Or(other: DynamicBitset) returns (newset: DynamicBitset)
      requires Valid() && other.Valid() && length == other.length
      ensures fresh(newset) && fresh(newset.bitfield) && newset.Valid() && newset.length == length
      ensures newset.Flags() == Either(Flags(), other.Flags())
    {
      newset := new DynamicBitset.Copy(this);
      newset.OrAssign(other);
    }

    /** `operator&`. */
    method And(other: DynamicBitset) returns (newset: DynamicBitset)
      requires Valid() && other.Valid() && length == other.length
      ensures fresh(newset) && fresh(newset.bitfield) && newset.Valid() && newset.length == length
      ensures newset.Flags() == Both(Flags(), other.Flags())
    {
      newset := new DynamicBitset.Copy(this);
      newset.AndAssign(other);
    }

    method Count() returns (setBits: nat)
      requires Valid()
      ensures setBits == CountTrue(Flags())
    {
      hide PopCount, Ones;
      setBits := 0;
      for k := 0 to bitfield.Length
        invariant setBits == CountHeld(bitfield[..], 64 * k)
      {
        PopCountOfWord(bitfield[..], k);
        setBits := setBits + PopCount(bitfield[k]);
      }
      CountOfAllWords(bitfield[..], length);
    }

    method Any() returns (r: bool)
      requires Valid()
      ensures r == (true in Flags())
    {
      for k := 0 to bitfield.Length
        invariant forall j :: 0 <= j < k ==> bitfield[j] == 0
      {
        if bitfield[k] != 0 {
          ghost var i := WordHolds(bitfield[..], k);
          assert i < length;
          assert Flags()[i];
          return true;
        }
      }
      forall i | 0 <= i < length
        ensures !Flags()[i]
      {
        ZeroHasNoBits(63 - i % 64);
      }
      r := false;
    }

    method None() returns (r: bool)
      requires Valid()
      ensures r == (true !in Flags())
    {
      var any := Any();
      r := !any;
    }

    method All() returns (r: bool)
      requires Valid()
      ensures r == (false !in Flags())
    {
      if length == 0 { return true; }
      var last := bitfield.Length - 1;
      for k := 0 to last
        invariant forall i :: 0 <= i < 64 * k ==> Held(bitfield[..], i)
      {
        if bitfield[k] != WORD_MAX {
          NotFullWord(k);
          return false;
        }
        FullWord(k);
      }
      if LowSix(length) != 0 {
        LastWord();
        return CountlOne(bitfield[last], 64) == LowSix(length);
      }
      if bitfield[last] != WORD_MAX {
        NotFullWord(last);
        return false;
      }
      FullWord(last);
      return true;
    }

    lemma FullWord(k: nat)
      requires Valid() && k < bitfield.Length && bitfield[k] == WORD_MAX
      ensures forall i :: 64 * k <= i < 64 * (k + 1) ==> Held(bitfield[..], i)
    {
      forall i | 64 * k <= i < 64 * (k + 1)
        ensures Held(bitfield[..], i)
      {
        MaxIsFull(63 - i % 64);
      }
    }

    lemma NotFullWord(k: nat)
      requires Valid() && k < bitfield.Length && bitfield[k] != WORD_MAX && 64 * (k + 1) <= length
      ensures false in Flags()
    {
      if forall i :: 0 <= i < 64 ==> Bit(bitfield[k], i) {
        FullIsMax(bitfield[k]);
      }
      var b :| 0 <= b < 64 && !Bit(bitfield[k], b);
      var i := 64 * k + 63 - b;
      assert !Flags()[i];
    }

    /** The leading ones of a last word with padding are as many as its flags exactly when all of them are set. */
    lemma LastWord()
      requires Valid() && length % 64 != 0
      ensures var last := bitfield.Length - 1;
              CountlOne(bitfield[last], 64) == length % 64
              <==> forall i :: 64 * last <= i < length ==> Held(bitfield[..], i)
    {
      var last, rest := bitfield.Length - 1, length % 64;
      var w := bitfield[last];
      LeadingOnes(w, 64);
      assert length == 64 * last + rest;
      assert !Held(bitfield[..], length);
      var ones := CountlOne(w, 64);
      forall i | 64 * last <= i < length
        ensures Held(bitfield[..], i) == Bit(w, 63 - (i - 64 * last))
      {
        assert i / 64 == last && i % 64 == i - 64 * last;
      }
      if ones < rest {
        assert !Held(bitfield[..], 64 * last + ones);
      }
    }

    /**
     * Reads a bitfield message on top of what the set holds. The last byte is looked at even when there is none,
     * which a set of length zero rules out.
     */
    method DecodeAsPayload(bytes: seq<byte>) returns (ok: bool)
      requires Valid() && (length > 0 || |bytes| > 0)
      modifies bitfield
      ensures Valid()
      ensures ok == Decoded(bytes, old(Flags())).Some?
      ensures Flags() == if ok then Decoded(bytes, old(Flags())).value else old(Flags())
    {
      if |bytes| != BytesLength(length) { return false; }
      var remains := LowThree(length);
      var endByte := bytes[|bytes| - 1];
      if remains != 0 {
        SpareMask(bytes, length);
        if BitWords.And(endByte, ShiftRight(255, remains)) != 0 { return false; }
      }
      OrBytes(bytes);
      ok := true;
    }

    /** The loop of `decode_as_payload`. */
    method OrBytes(bytes: seq<byte>)
      requires Valid() && |bytes| == BytesLength(length) && SpareClear(bytes, length)
      modifies bitfield
      ensures Valid()
      ensures Flags() == Either(old(Flags()), Read(bytes, length))
    {
      hide OrWords, ByteInWord, PayloadBit, Held;
      var wordOffset, byteOffset := 0, 7;
      ghost var before := bitfield[..];
      for k := 0 to |bytes|
        invariant wordOffset == k / 8 && byteOffset == 7 - k % 8
        invariant forall i: nat :: Held(bitfield[..], i) == (Held(before, i) || (i / 8 < k && PayloadBit(bytes, i)))
      {
        ghost var words := bitfield[..];
        bitfield[wordOffset] := OrWords(bitfield[wordOffset], ByteInWord(bytes[k], byteOffset));
        assert bitfield[..] == words[k / 8 := OrWords(words[k / 8], ByteInWord(bytes[k], 7 - k % 8))];
        forall i: nat
          ensures Held(bitfield[..], i) == (Held(words, i) || (i / 8 == k && PayloadBit(bytes, i)))
        {
          OrByte(words, bytes, k, i);
        }
        if byteOffset == 0 {
          wordOffset := wordOffset + 1;
          byteOffset := 7;
          continue;
        }
        byteOffset := byteOffset - 1;
      }
      forall i | length <= i < 64 * bitfield.Length
        ensures !Held(bitfield[..], i)
      {
        assert i / 8 < |bytes| ==> !PayloadBit(bytes, i);
      }
    }

    /**
     * Writes the set's message from byte `encoded` on into `target`, as much as fits, and returns how much of the
     * message is then written.
     */
    method EncodeAsPayload(target: array<byte>, encoded: nat, native: Endian) returns (written: nat)
      requires Valid() && encoded <= BytesLength(length)
      modifies target
      ensures written == Min(BytesLength(length), encoded + target.Length)
      ensures target[..written - encoded] == Payload(Flags())[encoded..written]
      ensures target[written - encoded..] == old(target[written - encoded..])
      ensures Valid() && bitfield[..] == old(bitfield[..])
    {
      hide Padded, Payload, FlagsOf, MemoryByte, HWordToNWord;
      var total := BytesLength(length);
      if target.Length == 0 || encoded >= total { return encoded; }
      var byteOffset: nat, at: nat := encoded % 8, 0;
      written := encoded;
      ghost var payload, blank := Payload(Flags()), target[..];
      for startWord := encoded / 8 to bitfield.Length
        invariant written == encoded + at <= total && at < target.Length && byteOffset < 8
        invariant written == total || written == 8 * startWord + byteOffset
        invariant target[..at] == payload[encoded..written]
        invariant target[at..] == blank[at..]
        invariant bitfield[..] == old(bitfield[..])
      {
        var n := Min(Min(target.Length - at, total - written), 8 - byteOffset);
        SliceJoin(payload, encoded, written, written + n);
        DropMore(target[..], blank, at, n);
        WriteWord(target, at, startWord, byteOffset, n, written, native);
        written := written + n;
        at := at + n;
        if byteOffset + n == 8 { byteOffset := 0; }
        if at == target.Length { break; }
      }
    }

    /** The `memcpy` of a word's bytes into the target. */
    method WriteWord(target: array<byte>, at: nat, k: nat, byteOffset: nat, n: nat, ghost from: nat, native: Endian)
      requires Valid() && k < bitfield.Length && byteOffset + n <= 8 && at + n <= target.Length
      requires n > 0 ==> from == 8 * k + byteOffset
      requires from + n <= BytesLength(length)
      modifies target
      ensures target[..at + n] == old(target[..at]) + Payload(Flags())[from..from + n]
      ensures target[at + n..] == old(target[at + n..])
      ensures bitfield[..] == old(bitfield[..])
    {
      hide Padded, MemoryByte, HWordToNWord, Payload, FlagsOf;
      var currentWord := HWordToNWord(bitfield[k], native);
      ghost var written := Payload(Flags())[from..from + n];
      forall j | 0 <= j < n
        ensures MemoryByte(currentWord, byteOffset + j, native) == written[j]
      {
        assert (from + j) / 8 == k && (from + j) % 8 == byteOffset + j;
        EncodedByte(bitfield[..], length, from + j, native);
      }
      forall j | 0 <= j < n {
        target[at + j] := MemoryByte(currentWord, byteOffset + j, native);
      }
      assert target[..at + n] == old(target[..at]) + written;
    }

    /** Resumed calls, whatever the sizes of the buffers, put the message on the wire once and in order. */
    method EncodeInChunks(chunks: seq<nat>, native: Endian) returns (wire: seq<byte>)
      requires Valid()
      ensures wire == Payload(Flags())[..Min(BytesLength(length), Sum(chunks))]
    {
      hide Payload, FlagsOf, Padded;
      wire := [];
      var encoded := 0;
      assert chunks[..0] == [];
      for k := 0 to |chunks|
        invariant encoded == Min(BytesLength(length), Sum(chunks[..k]))
        invariant wire == Payload(Flags())[..encoded]
      {
        var target := new byte[chunks[k]];
        var written := EncodeAsPayload(target, encoded, native);
        wire := wire + target[..written - encoded];
        encoded := written;
        assert chunks[..k + 1][..k] == chunks[..k];
      }
      assert chunks[..|chunks|] == chunks;
    }

    method FindFirst() returns (r: nat)
      requires Valid()
      ensures r == NPOS ==> true !in Flags()
      ensures r != NPOS ==> r < length && Flags()[r] && forall j :: 0 <= j < r ==> !Flags()[j]
    {
      var first := new SetIterator.Begin(this);
      var atEnd := first.IsEnd();
      if atEnd {
        forall j | 0 <= j < length
          ensures !Flags()[j]
        {
          assert !first.Yields(j);
        }
        return NPOS;
      }
      label found:
      r := first.Dereference();
      assert Held(bitfield[..], r);
      forall j | 0 <= j < r
        ensures !Flags()[j]
      {
        assert !old@found(first.Yields(j));
      }
    }

    method FindNext(from: nat) returns (r: nat)
      requires Valid()
      ensures r == NPOS ==> forall j :: from < j < length ==> !Flags()[j]
      ensures r != NPOS ==> from < r < length && Flags()[r] && forall j :: from < j < r ==> !Flags()[j]
    {
      if from >= length { return NPOS; }
      var next := new SetIterator.After(this, from);
      next.Increment();
      var atEnd := next.IsEnd();
      if atEnd {
        forall j | from < j < length
          ensures !Flags()[j]
        {
          assert !next.Yields(j);
        }
        return NPOS;
      }
      label found:
      r := next.Dereference();
      assert Held(bitfield[..], r);
      forall j | from < j < r
        ensures !Flags()[j]
      {
        assert !old@found(next.Yields(j));
      }
    }

    /** The range-based `for` over `set_bits()`: what its loop variable takes, in turn. */
    method SetBits() returns (indices: seq<nat>)
      requires Valid()
      ensures indices == Trues(Flags())
    {
      hide Trues, FlagsOf, Held, Padded;
      indices := [];
      NoTrues(Flags());
      ghost var seen: nat := 0;
      var it := new SetIterator.Begin(this);
      var atEnd := it.IsEnd();
      while !atEnd
        invariant it.bits == this && it.At(seen, atEnd)
        invariant seen <= length && indices == Trues(Flags()[..seen])
        decreases length - seen, !atEnd
      {
        hide SetIterator.At;
        var index := Turn(it, seen);
        indices := indices + [index];
        seen := index + 1;
        atEnd := it.IsEnd();
      }
      Finished(it, seen);
    }

    /** One turn of that loop: take an index, move on. */
    method Turn(it: SetIterator, ghost seen: nat) returns (index: nat)
      requires Valid() && seen <= length && it.bits == this && it.At(seen, false)
      modifies it
      ensures Valid() && it.Valid() && it.Settled() && it.From(index + 1)
      ensures seen <= index < length
      ensures Trues(Flags()[..index + 1]) == Trues(Flags()[..seen]) + [index]
    {
      hide Trues, FlagsOf, Held, Padded;
      ghost var k, cached := it.wordIndex, it.cachedReads;
      label before:
      index := it.Dereference();
      assert forall j: nat :: Pending(bitfield[..], k, cached, j) == old@before(it.Yields(j));
      LeastIsNext(bitfield[..], length, seen, k, cached, index);
      it.Increment();
    }

    lemma Finished(it: SetIterator, seen: nat)
      requires Valid() && seen <= length && it.bits == this && it.At(seen, true)
      ensures Trues(Flags()[..seen]) == Trues(Flags())
    {
      hide Trues, Held, Padded;
      assert forall j: nat :: Pending(bitfield[..], it.wordIndex, it.cachedReads, j) == it.Yields(j);
      NoneLeft(bitfield[..], length, seen, it.wordIndex, it.cachedReads);
    }
  }

  /** `set_range_t::iterator`. */
  class SetIterator {
    const bits: DynamicBitset
    var wordIndex: word
    var cachedReads: word

    ghost predicate Valid()
      reads this, bits.bitfield
    {
      && bits.Valid()
      && if bits.bitfield.Length == 0 then wordIndex == NPOS && cachedReads == 0 else wordIndex < bits.bitfield.Length
    }

    /** Index `j` is still to come. */
    ghost predicate Yields(j: nat)
      reads this, bits.bitfield
    {
      Pending(bits.bitfield[..], wordIndex, cachedReads, j)
    }

    /** The indices to come are the members of the set from `seen` on. */
    ghost predicate From(seen: nat)
      reads this, bits.bitfield
    {
      forall j: nat :: Yields(j) == (seen <= j && Held(bits.bitfield[..], j))
    }

    /** The iterator stands before those members, and knows whether there are any. */
    ghost predicate At(seen: nat, atEnd: bool)
      reads this, bits.bitfield
    {
      Valid() && Settled() && From(seen) && atEnd == Ended() && (atEnd ==> forall j: nat :: !Yields(j))
    }

    /** The cached word is not used up, unless it is the last. */
    ghost predicate Settled()
      reads this, bits.bitfield
    {
      cachedReads != 0 || wordIndex + 1 >= bits.bitfield.Length
    }

    ghost predicate Ended()
      requires bits.Valid()
      reads this, bits.bitfield
    {
      wordIndex == EndIndex() && cachedReads == 0
    }

    /** `bitfield.size() - 1` in `std::size_t`. */
    function EndIndex(): word
      requires bits.Valid()
      reads bits.bitfield
    {
      if bits.bitfield.Length == 0 then NPOS else bits.bitfield.Length - 1
    }

    /** `set_bits().begin()`. */
    constructor Begin(bits: DynamicBitset)
      requires bits.Valid()
      ensures this.bits == bits && Valid() && Settled()
      ensures forall j: nat :: Yields(j) == Held(bits.bitfield[..], j)
    {
      this.bits := bits;
      wordIndex := if bits.length == 0 then NPOS else 0;
      cachedReads := if bits.length == 0 then 0 else bits.bitfield[0];
      new;
      if bits.length == 0 {
        forall j: nat
          ensures !Yields(j) && !Held(bits.bitfield[..], j)
        {
          ZeroHasNoBits(63 - j % 64);
        }
        return;
      }
      var first := bits.Test(0);
      if first {
        ZeroHasNoBits(63);
      } else {
        Increment();
      }
    }

    /** Where `find_next` places its iterator before moving it. */
    constructor After(bits: DynamicBitset, from: nat)
      requires bits.Valid() && from < bits.length
      ensures this.bits == bits && Valid()
      ensures forall j: nat :: Yields(j) == (from < j && Held(bits.bitfield[..], j))
    {
      this.bits := bits;
      wordIndex := from / 64;
      cachedReads :=
        if LowSix(from) == 63 then 0
        else AndWords(bits.bitfield[from / 64], ShiftWordRight(WORD_MAX, LowSix(from) + 1));
      new;
      forall j: nat
        ensures Yields(j) == (from < j && Held(bits.bitfield[..], j))
      {
        MaskAfter(bits.bitfield[..], from, j);
      }
    }

    /** `*it == *end` of the same set. */
    method IsEnd() returns (r: bool)
      requires Valid() && Settled()
      ensures r == Ended()
      ensures r == forall j: nat :: !Yields(j)
    {
      r := wordIndex == EndIndex() && cachedReads == 0;
      if r {
        forall j: nat
          ensures !Yields(j)
        {
          ZeroHasNoBits(63 - j % 64);
        }
      } else {
        TakeFirst(bits.bitfield[..], wordIndex, cachedReads, 0);
        assert Yields(64 * wordIndex + CountlZero(cachedReads, 64));
      }
    }

    /** `operator++`: caches the next word that has something left, and loses nothing. */
    method Increment()
      requires Valid()
      modifies this
      ensures Valid() && Settled()
      ensures forall j: nat :: Yields(j) == old(Yields(j))
    {
      var next := (wordIndex + 1) % WORD_VALUES;
      while next < bits.bitfield.Length
        invariant Valid()
        invariant bits.bitfield.Length > 0 ==> next == wordIndex + 1
        invariant forall j: nat :: Yields(j) == old(Yields(j))
      {
        if cachedReads != 0 { return; }
        forall j: nat
          ensures Pending(bits.bitfield[..], next, bits.bitfield[next], j) == Yields(j)
        {
          NextWord(bits.bitfield[..], wordIndex, j);
        }
        cachedReads := bits.bitfield[next];
        wordIndex := next;
        next := next + 1;
      }
    }

    lemma NoLeadingBit()
      ensures CountlZero(0, 64) == 64
    {
      LeadingZeros(0, 64);
      if CountlZero(0, 64) < 64 {
        ZeroHasNoBits(63 - CountlZero(0, 64));
      }
    }

    /** `operator*`: the least index to come, which it takes; past the last, the end of the cached word. */
    method Dereference() returns (r: nat)
      requires Valid()
      modifies this
      ensures Valid() && wordIndex == old(wordIndex)
      ensures old(cachedReads) == 0 ==> r == 64 * wordIndex + 64 && cachedReads == 0
      ensures old(cachedReads) != 0 ==> old(Yields(r))
      ensures old(cachedReads) != 0 ==> forall j: nat :: j < r ==> !old(Yields(j))
      ensures old(cachedReads) != 0 ==> forall j: nat :: Yields(j) == (old(Yields(j)) && j != r)
    {
      var setBitIndex := CountlZero(cachedReads, 64);
      r := 64 * wordIndex + setBitIndex;
      ghost var before := cachedReads;
      if setBitIndex < 64 {
        cachedReads := AndWords(cachedReads, Not(Unit(63 - setBitIndex)));
      }
      if before == 0 {
        NoLeadingBit();
      } else {
        forall j: nat
          ensures j < r ==> !old(Yields(j))
          ensures Yields(j) == (old(Yields(j)) && j != r)
        {
          TakeFirst(bits.bitfield[..], wordIndex, before, j);
        }
        TakeFirst(bits.bitfield[..], wordIndex, before, r);
      }
    }
  }
}
