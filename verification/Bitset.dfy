/** What a packed bitset holds: bit 0 is the most significant bit of word 0. */
module Bitset {
  import opened BitWords
  import opened WordBits

  /** `words_length`. */
  function WordsLength(bits: nat): (words: nat)
    ensures bits <= 64 * words < bits + 64
  {
    bits / 64 + if bits % 64 != 0 then 1 else 0
  }

  /** `index & 63`. */
  function LowSix(index: nat): (r: nat)
    ensures r == index % 64
  {
    SixtyFourIsOneBit();
    SingleBitMask(index, 64);
    And(index, 63)
  }

  lemma SixtyFourIsOneBit()
    ensures PopCount(64) == 1
  {
  }

  /** Whether flag `i` is set in the packed words, padding included. */
  predicate Held(words: seq<word>, i: nat) {
    i / 64 < |words| && Bit(words[i / 64], 63 - i % 64)
  }

  /** The set itself, flag by flag. */
  function FlagsOf(words: seq<word>, length: nat): (flags: seq<bool>)
    ensures |flags| == length && forall i :: 0 <= i < length ==> flags[i] == Held(words, i)
  {
    seq(length, i requires 0 <= i => Held(words, i))
  }

  /** The bits after the last flag are zero. */
  ghost predicate Padded(words: seq<word>, length: nat) {
    forall i :: length <= i < 64 * |words| ==> !Held(words, i)
  }

  /** Union and intersection of two sets of the same length. */
  function Either(a: seq<bool>, b: seq<bool>): (r: seq<bool>)
    requires |a| == |b|
    ensures |r| == |a| && forall i :: 0 <= i < |r| ==> r[i] == (a[i] || b[i])
  {
    seq(|a|, i requires 0 <= i < |a| => a[i] || b[i])
  }

  function Both(a: seq<bool>, b: seq<bool>): (r: seq<bool>)
    requires |a| == |b|
    ensures |r| == |a| && forall i :: 0 <= i < |r| ==> r[i] == (a[i] && b[i])
  {
    seq(|a|, i requires 0 <= i < |a| => a[i] && b[i])
  }

  function CountTrue(flags: seq<bool>): nat {
    if flags == [] then 0 else CountTrue(flags[..|flags| - 1]) + if flags[|flags| - 1] then 1 else 0
  }

  /** The indices that are set, in increasing order. */
  function Trues(flags: seq<bool>): seq<nat> {
    if flags == [] then []
    else Trues(flags[..|flags| - 1]) + if flags[|flags| - 1] then [|flags| - 1] else []
  }

  /** The indices are those of the flags that are set, strictly increasing, and as many as the count says. */
  lemma {:induction false} TruesAreTheSet(flags: seq<bool>)
    ensures |Trues(flags)| == CountTrue(flags)
    ensures forall k :: 0 <= k < |Trues(flags)| ==> Trues(flags)[k] < |flags|
    ensures forall j, k :: 0 <= j < k < |Trues(flags)| ==> Trues(flags)[j] < Trues(flags)[k]
    ensures forall i :: i in Trues(flags) <==> 0 <= i < |flags| && flags[i]
  {
    if flags != [] {
      TruesAreTheSet(flags[..|flags| - 1]);
    }
  }

  /** Flags that are not set add nothing. */
  lemma {:induction false} NoneBetween(flags: seq<bool>, i: nat, j: nat)
    requires i <= j <= |flags| && forall k :: i <= k < j ==> !flags[k]
    ensures Trues(flags[..j]) == Trues(flags[..i])
    decreases j
  {
    if i < j {
      assert flags[..j][..j - 1] == flags[..j - 1];
      NoneBetween(flags, i, j - 1);
    }
  }

  lemma OneMore(flags: seq<bool>, i: nat)
    requires i < |flags| && flags[i]
    ensures Trues(flags[..i + 1]) == Trues(flags[..i]) + [i]
  {
    assert flags[..i + 1][..i] == flags[..i];
  }

  // One word changed.

  lemma SetWord(words: seq<word>, index: nat, i: nat)
    requires index / 64 < |words|
    ensures var k := index / 64;
            Held(words[k := OrWords(words[k], Unit(63 - index % 64))], i) == (Held(words, i) || i == index)
  {
    var k := index / 64;
    if i / 64 == k {
      BitOfOr(words[k], ShiftLeft(1, 63 - index % 64), 63 - i % 64);
      BitOfUnit(63 - index % 64, 63 - i % 64);
    }
  }

  lemma ClearBit(w: word, n: nat, i: nat)
    requires n < 64 && i < 64
    ensures Bit(AndWords(w, Not(Unit(n))), i) == (Bit(w, i) && i != n)
  {
    BitOfAnd(w, Not(Unit(n)), i);
    BitOfNot(Unit(n), i);
    BitOfUnit(n, i);
  }

  lemma ResetWord(words: seq<word>, index: nat, i: nat)
    requires index / 64 < |words|
    ensures var k := index / 64;
            Held(words[k := AndWords(words[k], Not(Unit(63 - index % 64)))], i) == (Held(words, i) && i != index)
  {
    var k := index / 64;
    if i / 64 == k {
      ClearBit(words[k], 63 - index % 64, 63 - i % 64);
    }
  }

  // Whole words.

  lemma HighestBit(w: word)
    requires w != 0
    ensures var z := CountlZero(w, 64);
            z < 64 && Bit(w, 63 - z) && forall i :: 64 - z <= i < 64 ==> !Bit(w, i)
  {
    LeadingZeros(w, 64);
    WordWidth();
    if CountlZero(w, 64) == 64 {
      NoBitsIsZero(w, 64);
    }
  }

  /** A word that is not zero holds a flag. */
  lemma WordHolds(words: seq<word>, k: nat) returns (i: nat)
    requires k < |words| && words[k] != 0
    ensures i / 64 == k && Held(words, i)
  {
    HighestBit(words[k]);
    i := 64 * k + CountlZero(words[k], 64);
  }

  lemma MaxIsFull(i: nat)
    requires i < 64
    ensures Bit(WORD_MAX, i)
  {
    WordWidth();
    BitOfOnes(64, i);
  }

  lemma FullIsMax(w: word)
    requires forall i :: 0 <= i < 64 ==> Bit(w, i)
    ensures w == WORD_MAX
  {
    WordWidth();
    forall i | 0 <= i < 64
      ensures Bit(WORD_MAX, i)
    {
      MaxIsFull(i);
    }
    SameBits(w, WORD_MAX, 64);
  }

  // Counting.

  function CountHeld(words: seq<word>, n: nat): nat {
    if n == 0 then 0 else CountHeld(words, n - 1) + if Held(words, n - 1) then 1 else 0
  }

  lemma {:induction false} CountInWord(words: seq<word>, k: nat, m: nat)
    requires k < |words| && m <= 64
    ensures CountHeld(words, 64 * k + m) + Ones(words[k], 64 - m) == CountHeld(words, 64 * k) + Ones(words[k], 64)
    decreases m
  {
    if m > 0 {
      CountInWord(words, k, m - 1);
      var i := 64 * k + m - 1;
      assert i / 64 == k && i % 64 == m - 1;
    }
  }

  lemma NoOnes(x: nat)
    ensures Ones(x, 0) == 0
  {
  }

  /** The population count of a word is the number of flags it holds. */
  lemma PopCountOfWord(words: seq<word>, k: nat)
    requires k < |words|
    ensures CountHeld(words, 64 * (k + 1)) == CountHeld(words, 64 * k) + PopCount(words[k])
  {
    hide PopCount, CountHeld, Ones, Pow2;
    WordWidth();
    PopCountIsOnes(words[k], 64);
    CountInWord(words, k, 64);
    NoOnes(words[k]);
    assert 64 * k + 64 == 64 * (k + 1);
  }

  lemma {:induction false} CountHeldIsCountTrue(words: seq<word>, length: nat, n: nat)
    requires n <= length
    ensures CountHeld(words, n) == CountTrue(FlagsOf(words, length)[..n])
  {
    if n > 0 {
      CountHeldIsCountTrue(words, length, n - 1);
      assert FlagsOf(words, length)[..n][..n - 1] == FlagsOf(words, length)[..n - 1];
    }
  }

  lemma {:induction false} PaddingDoesNotCount(words: seq<word>, length: nat, n: nat)
    requires Padded(words, length) && length <= n <= 64 * |words|
    ensures CountHeld(words, n) == CountHeld(words, length)
    decreases n
  {
    if length < n {
      PaddingDoesNotCount(words, length, n - 1);
    }
  }

  lemma CountOfAllWords(words: seq<word>, length: nat)
    requires Padded(words, length) && |words| == WordsLength(length)
    ensures CountHeld(words, 64 * |words|) == CountTrue(FlagsOf(words, length))
  {
    PaddingDoesNotCount(words, length, 64 * |words|);
    CountHeldIsCountTrue(words, length, length);
    assert FlagsOf(words, length)[..length] == FlagsOf(words, length);
  }

  // Iterating.

  /** What an iterator over the words has yet to yield, with `cached` what is left of word `k`. */
  predicate Pending(words: seq<word>, k: nat, cached: word, j: nat) {
    (j / 64 == k && Bit(cached, 63 - j % 64)) || (k < j / 64 && Held(words, j))
  }

  lemma NoTrues(flags: seq<bool>)
    ensures Trues(flags[..0]) == []
  {
  }

  /** With everything from `seen` on pending, the least pending index is the next one of the set. */
  lemma LeastIsNext(words: seq<word>, length: nat, seen: nat, k: nat, cached: word, index: nat)
    requires seen <= length && |words| == WordsLength(length) && Padded(words, length)
    requires forall j: nat :: Pending(words, k, cached, j) == (seen <= j && Held(words, j))
    requires Pending(words, k, cached, index) && forall j: nat :: j < index ==> !Pending(words, k, cached, j)
    ensures seen <= index < length
    ensures Trues(FlagsOf(words, length)[..index + 1]) == Trues(FlagsOf(words, length)[..seen]) + [index]
  {
    hide Trues, Pending;
    var flags := FlagsOf(words, length);
    assert Held(words, index);
    forall j | seen <= j < index
      ensures !flags[j]
    {
      assert !Pending(words, k, cached, j);
    }
    NoneBetween(flags, seen, index);
    OneMore(flags, index);
  }

  /** With nothing pending, the set has been gone through. */
  lemma NoneLeft(words: seq<word>, length: nat, seen: nat, k: nat, cached: word)
    requires seen <= length
    requires forall j: nat :: Pending(words, k, cached, j) == (seen <= j && Held(words, j))
    requires forall j: nat :: !Pending(words, k, cached, j)
    ensures Trues(FlagsOf(words, length)) == Trues(FlagsOf(words, length)[..seen])
  {
    hide Trues, Pending;
    var flags := FlagsOf(words, length);
    forall j | seen <= j < length
      ensures !flags[j]
    {
      assert !Pending(words, k, cached, j);
    }
    NoneBetween(flags, seen, length);
    assert flags[..length] == flags;
  }

  /** Nothing is lost by moving to the next word once the cached one is used up. */
  lemma NextWord(words: seq<word>, k: nat, j: nat)
    requires k + 1 < |words|
    ensures Pending(words, k + 1, words[k + 1], j) == Pending(words, k, 0, j)
  {
    ZeroHasNoBits(63 - j % 64);
  }

  /** The highest bit of the cached word is the least index pending, and clearing it takes just that index. */
  lemma TakeFirst(words: seq<word>, k: nat, cached: word, j: nat)
    requires cached != 0
    ensures var z := CountlZero(cached, 64);
            && z < 64
            && Pending(words, k, cached, 64 * k + z)
            && (j < 64 * k + z ==> !Pending(words, k, cached, j))
            && Pending(words, k, AndWords(cached, Not(Unit(63 - z))), j)
            == (Pending(words, k, cached, j) && j != 64 * k + z)
  {
    hide Bit, CountlZero, AndWords, Not, Unit;
    var z := CountlZero(cached, 64);
    HighestBit(cached);
    ClearBit(cached, 63 - z, 63 - j % 64);
    assert (64 * k + z) / 64 == k && (64 * k + z) % 64 == z;
  }

  /** The mask that `find_next` puts over its first word keeps what comes after `from`. */
  lemma MaskAfter(words: seq<word>, from: nat, j: nat)
    requires from / 64 < |words|
    ensures var k, b := from / 64, from % 64;
            var cached := if b == 63 then 0 else AndWords(words[k], ShiftWordRight(WORD_MAX, b + 1));
            Pending(words, k, cached, j) == (from < j && Held(words, j))
  {
    var k, b := from / 64, from % 64;
    ZeroHasNoBits(63 - j % 64);
    if b < 63 {
      WordWidth();
      BitOfAnd(words[k], ShiftWordRight(WORD_MAX, b + 1), 63 - j % 64);
      BitOfShiftRight(WORD_MAX, b + 1, 63 - j % 64);
      BitOfOnes(64, 63 - j % 64 + b + 1);
    }
  }
}
