/** The bitfield message of the peer protocol (BEP 3, "peer messages"): a set as bytes, high bit first. */
module BitsetPayload {
  import opened Common
  import opened BitWords
  import opened WordBits
  import opened Bitset

  /** `index & 7`. */
  function LowThree(index: nat): (r: nat)
    ensures r == index % 8
  {
    SingleBitMask(index, 8);
    And(index, 7)
  }

  /** `bytes_length`. */
  function BytesLength(bits: nat): (bytes: nat)
    ensures bits <= 8 * bytes < bits + 8
  {
    bits / 8 + if LowThree(bits) != 0 then 1 else 0
  }

  /** Bit `i` of a message. */
  predicate PayloadBit(bytes: seq<byte>, i: nat) {
    i / 8 < |bytes| && Bit(bytes[i / 8], 7 - i % 8)
  }

  /** `n` flags from `from` on as a number, the first the highest; past the end they are clear. */
  function Pack(flags: seq<bool>, from: nat, n: nat): (x: nat)
    ensures x < Pow2(n)
  {
    if n == 0 then 0
    else 2 * Pack(flags, from, n - 1) + if from + n - 1 < |flags| && flags[from + n - 1] then 1 else 0
  }

  function PackByte(flags: seq<bool>, k: nat): byte {
    ByteWidth();
    Pack(flags, 8 * k, 8)
  }

  /** The message a set is sent as. */
  function Payload(flags: seq<bool>): (bytes: seq<byte>)
    ensures |bytes| == BytesLength(|flags|)
  {
    seq(BytesLength(|flags|), k requires 0 <= k => PackByte(flags, k))
  }

  lemma {:induction false} BitOfPack(flags: seq<bool>, from: nat, n: nat, b: nat)
    requires b < n
    ensures Bit(Pack(flags, from, n), b) == (from + n - 1 - b < |flags| && flags[from + n - 1 - b])
    decreases n
  {
    if b > 0 {
      BitOfPack(flags, from, n - 1, b - 1);
    }
  }

  /** The message carries each flag at its own place, and zeros after the last. */
  lemma PayloadBits(flags: seq<bool>, i: nat)
    requires i < 8 * BytesLength(|flags|)
    ensures PayloadBit(Payload(flags), i) == (i < |flags| && flags[i])
  {
    BitOfPack(flags, 8 * (i / 8), 8, 7 - i % 8);
  }

  /** Messages of one length with the same bits are the same. */
  lemma SamePayload(a: seq<byte>, b: seq<byte>)
    requires |a| == |b|
    requires forall i :: 0 <= i < 8 * |a| ==> PayloadBit(a, i) == PayloadBit(b, i)
    ensures a == b
  {
    forall k | 0 <= k < |a|
      ensures a[k] == b[k]
    {
      forall j | 0 <= j < 8
        ensures Bit(a[k], j) == Bit(b[k], j)
      {
        var i := 8 * k + 7 - j;
        assert i / 8 == k && i % 8 == 7 - j;
        assert PayloadBit(a, i) == PayloadBit(b, i);
      }
      ByteWidth();
      SameBits(a[k], b[k], 8);
    }
  }

  // Reading.

  /** The bits after the last flag of a message. */
  ghost predicate SpareClear(bytes: seq<byte>, length: nat) {
    forall i :: length <= i < 8 * |bytes| ==> !PayloadBit(bytes, i)
  }

  function Read(bytes: seq<byte>, length: nat): (flags: seq<bool>)
    ensures |flags| == length && forall i :: 0 <= i < length ==> flags[i] == PayloadBit(bytes, i)
  {
    seq(length, i requires 0 <= i => PayloadBit(bytes, i))
  }

  /** What reading a message makes of a set: nothing if it is malformed, the union if not. */
  ghost function Decoded(bytes: seq<byte>, held: seq<bool>): Option<seq<bool>> {
    if |bytes| == BytesLength(|held|) && SpareClear(bytes, |held|) then Some(Either(held, Read(bytes, |held|))) else None
  }

  /** Reading a set's message into another adds the one to the other; into a clear one, it restores the set. */
  lemma DecodeUndoesEncode(flags: seq<bool>, held: seq<bool>)
    requires |held| == |flags|
    ensures Decoded(Payload(flags), held) == Some(Either(held, flags))
    ensures true !in held ==> Decoded(Payload(flags), held) == Some(flags)
  {
    var bytes := Payload(flags);
    forall i | 0 <= i < 8 * |bytes|
      ensures PayloadBit(bytes, i) == (i < |flags| && flags[i])
    {
      PayloadBits(flags, i);
    }
    assert Read(bytes, |flags|) == flags;
    if true !in held {
      assert forall i :: 0 <= i < |held| ==> !held[i];
      assert Either(held, flags) == flags;
    }
  }

  /** Every message that is accepted is the message of the set it makes. */
  lemma EncodeUndoesDecode(bytes: seq<byte>, length: nat)
    requires |bytes| == BytesLength(length) && SpareClear(bytes, length)
    ensures Payload(Read(bytes, length)) == bytes
  {
    var flags := Read(bytes, length);
    forall i | 0 <= i < 8 * |bytes|
      ensures PayloadBit(Payload(flags), i) == PayloadBit(bytes, i)
    {
      PayloadBits(flags, i);
    }
    SamePayload(Payload(flags), bytes);
  }

  /** The low `n` bits of a number are zero. */
  ghost predicate LowClear(x: nat, n: nat) {
    forall b :: 0 <= b < n ==> !Bit(x, b)
  }

  /** The mask over the last byte finds a spare bit exactly when there is one. */
  lemma SpareMask(bytes: seq<byte>, length: nat)
    requires |bytes| == BytesLength(length) && length % 8 != 0
    ensures And(bytes[|bytes| - 1], ShiftRight(255, length % 8)) == 0 <==> SpareClear(bytes, length)
  {
    hide SpareClear;
    MaskedBits(bytes[|bytes| - 1], length % 8);
    LastByte(bytes, length);
  }

  lemma MaskedBits(end: byte, rest: nat)
    requires 0 < rest < 8
    ensures And(end, ShiftRight(255, rest)) == 0 <==> LowClear(end, 8 - rest)
  {
    hide And, ShiftRight;
    var masked := And(end, ShiftRight(255, rest));
    ByteWidth();
    forall b | 0 <= b < 8
      ensures Bit(masked, b) == (b < 8 - rest && Bit(end, b))
    {
      BitOfAnd(end, ShiftRight(255, rest), b);
      BitOfShiftRight(255, rest, b);
      BitOfOnes(8, b + rest);
    }
    if masked == 0 {
      forall b | 0 <= b < 8 - rest
        ensures !Bit(end, b)
      {
        ZeroHasNoBits(b);
      }
    } else if LowClear(end, 8 - rest) {
      AndBound(end, ShiftRight(255, rest));
      NoBitsIsZero(masked, 8);
    }
  }

  lemma LastByte(bytes: seq<byte>, length: nat)
    requires |bytes| == BytesLength(length) && length % 8 != 0
    ensures SpareClear(bytes, length) <==> LowClear(bytes[|bytes| - 1], 8 - length % 8)
  {
    var last := |bytes| - 1;
    assert length == 8 * last + length % 8;
    if LowClear(bytes[last], 8 - length % 8) {
      forall i | length <= i < 8 * |bytes|
        ensures !PayloadBit(bytes, i)
      {
        assert i / 8 == last && i % 8 >= length % 8;
      }
    }
    if SpareClear(bytes, length) {
      forall b | 0 <= b < 8 - length % 8
        ensures !Bit(bytes[last], b)
      {
        var i := 8 * last + 7 - b;
        assert i / 8 == last && i % 8 == 7 - b;
        assert !PayloadBit(bytes, i);
      }
    }
  }

  /** A byte moved up to byte `offset` of a word. */
  function ByteInWord(b: byte, offset: nat): word
    requires offset < 8
  {
    ByteWidth();
    ShiftLeftBound(b, 8 * offset, 8);
    PowGrows(8 + 8 * offset, 64);
    WordWidth();
    ShiftLeft(b, 8 * offset)
  }

  /** Message byte `k` lands on the flags it carries and on no others. */
  lemma OrByte(words: seq<word>, bytes: seq<byte>, k: nat, i: nat)
    requires k < |bytes| && k / 8 < |words|
    ensures Held(words[k / 8 := OrWords(words[k / 8], ByteInWord(bytes[k], 7 - k % 8))], i)
         == (Held(words, i) || (i / 8 == k && PayloadBit(bytes, i)))
  {
    var w, offset := k / 8, 7 - k % 8;
    if i / 64 == w {
      BitOfOr(words[w], ByteInWord(bytes[k], offset), 63 - i % 64);
      BitOfShiftLeft(bytes[k], 8 * offset, 63 - i % 64);
      if i / 8 < k {
        ByteWidth();
        BitBeyond(bytes[k], 8, 63 - i % 64 - 8 * offset);
      }
    }
  }

  // Writing.

  /** How the machine lays a word out in memory. */
  datatype Endian = Little | Big

  /** `word & 0xFF << 8 * from`, moved to byte `to`. */
  function MoveByte(w: word, from: nat, to: nat): word
    requires from < 8 && to < 8
  {
    MoveByteBound(w, from, to);
    Moved(w, from, to)
  }

  function Moved(w: word, from: nat, to: nat): nat
    requires from < 8 && to < 8
  {
    var masked := And(w, ShiftLeft(255, 8 * from));
    if from <= to then ShiftLeft(masked, 8 * (to - from)) else ShiftRight(masked, 8 * (from - to))
  }

  lemma MoveByteBound(w: word, from: nat, to: nat)
    requires from < 8 && to < 8
    ensures Moved(w, from, to) < WORD_VALUES
  {
    var masked := And(w, ShiftLeft(255, 8 * from));
    WordWidth();
    if from <= to {
      AndCommutes(w, ShiftLeft(255, 8 * from));
      AndBound(ShiftLeft(255, 8 * from), w);
      ShiftLeftBound(255, 8 * from, 8);
      ShiftLeftBound(masked, 8 * (to - from), 8 + 8 * from);
      PowGrows(8 + 8 * to, 64);
      assert 8 + 8 * from + 8 * (to - from) == 8 + 8 * to;
    } else {
      AndBound(w, ShiftLeft(255, 8 * from));
      ShiftRightBound(masked, 8 * (from - to));
    }
  }

  lemma {:induction false} AndCommutes(x: nat, y: nat)
    ensures And(x, y) == And(y, x)
  {
    if x != 0 && y != 0 {
      AndCommutes(x / 2, y / 2);
    }
  }

  /** The first `n` terms of the byte swap, or-ed together. */
  function Swapped(w: word, n: nat): word
    requires n <= 8
  {
    if n == 0 then 0 else OrWords(Swapped(w, n - 1), MoveByte(w, n - 1, 8 - n))
  }

  /** `h_word_to_n_word`. */
  function HWordToNWord(w: word, native: Endian): word {
    if native == Little then Swapped(w, 8) else w
  }

  /** Byte `k` of a word in memory. */
  function MemoryByte(w: word, k: nat, native: Endian): byte
    requires k < 8
  {
    AndCommutes(ShiftRight(w, ByteShift(k, native)), 255);
    AndBound(255, ShiftRight(w, ByteShift(k, native)));
    And(ShiftRight(w, ByteShift(k, native)), 255)
  }

  function ByteShift(k: nat, native: Endian): nat
    requires k < 8
  {
    if native == Little then 8 * k else 8 * (7 - k)
  }

  lemma BitOfMoveByte(w: word, from: nat, to: nat, i: nat)
    requires from < 8 && to < 8
    ensures Bit(MoveByte(w, from, to), i) == (i / 8 == to && Bit(w, 8 * from + i % 8))
  {
    hide Bit, And, ShiftLeft, ShiftRight;
    var mask := ShiftLeft(255, 8 * from);
    var masked := And(w, mask);
    ghost var source := i - 8 * to + 8 * from;
    if from <= to {
      BitOfShiftLeft(masked, 8 * (to - from), i);
    } else {
      BitOfShiftRight(masked, 8 * (from - to), i);
    }
    if source >= 0 {
      BitOfAnd(w, mask, source);
      BitOfMask(from, source);
    }
  }

  lemma BitOfMask(from: nat, i: nat)
    ensures Bit(ShiftLeft(255, 8 * from), i) == (8 * from <= i < 8 * from + 8)
  {
    BitOfShiftLeft(255, 8 * from, i);
    if 8 * from <= i {
      ByteWidth();
      BitOfOnes(8, i - 8 * from);
    }
  }

  lemma {:induction false} BitOfSwapped(w: word, n: nat, i: nat)
    requires n <= 8 && i < 64
    ensures Bit(Swapped(w, n), i) == (7 - i / 8 < n && Bit(w, 8 * (7 - i / 8) + i % 8))
    decreases n
  {
    hide Bit, MoveByte;
    if n == 0 {
      ZeroHasNoBits(i);
    } else {
      BitOfSwapped(w, n - 1, i);
      BitOfOr(Swapped(w, n - 1), MoveByte(w, n - 1, 8 - n), i);
      BitOfMoveByte(w, n - 1, 8 - n, i);
    }
  }

  lemma BitOfMemoryByte(w: word, k: nat, native: Endian, b: nat)
    requires k < 8 && b < 8
    ensures Bit(MemoryByte(w, k, native), b) == Bit(w, ByteShift(k, native) + b)
  {
    hide Bit, And, ShiftRight;
    BitOfAnd(ShiftRight(w, ByteShift(k, native)), 255, b);
    BitOfShiftRight(w, ByteShift(k, native), b);
    ByteWidth();
    BitOfOnes(8, b);
  }

  /** On either machine, the bytes of the converted word in memory run from its highest to its lowest. */
  lemma NetworkOrder(w: word, k: nat, native: Endian, b: nat)
    requires k < 8 && b < 8
    ensures Bit(MemoryByte(HWordToNWord(w, native), k, native), b) == Bit(w, 8 * (7 - k) + b)
  {
    hide Bit, MemoryByte, Swapped;
    BitOfMemoryByte(HWordToNWord(w, native), k, native, b);
    if native == Little {
      BitOfSwapped(w, 8, 8 * k + b);
      assert (8 * k + b) / 8 == k && (8 * k + b) % 8 == b;
    }
  }

  /** So byte `p` taken from the words is byte `p` of the message. */
  lemma EncodedByte(words: seq<word>, length: nat, p: nat, native: Endian)
    requires |words| == WordsLength(length) && Padded(words, length) && p < BytesLength(length)
    ensures p / 8 < |words|
    ensures MemoryByte(HWordToNWord(words[p / 8], native), p % 8, native) == Payload(FlagsOf(words, length))[p]
  {
    hide Bit, MemoryByte, HWordToNWord, Pack;
    var flags := FlagsOf(words, length);
    var memory := MemoryByte(HWordToNWord(words[p / 8], native), p % 8, native);
    forall b | 0 <= b < 8
      ensures Bit(memory, b) == Bit(Payload(flags)[p], b)
    {
      var i := 8 * p + 7 - b;
      NetworkOrder(words[p / 8], p % 8, native, b);
      assert i / 64 == p / 8 && 63 - i % 64 == 8 * (7 - p % 8) + b;
      assert Bit(memory, b) == Held(words, i);
      BitOfPack(flags, 8 * p, 8, b);
    }
    ByteWidth();
    SameBits(memory, Payload(flags)[p], 8);
  }
}
