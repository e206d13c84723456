/** The word operations the bitset is made of, and what each does to a single bit. */
module WordBits {
  import opened BitWords

  const WORD_BITS: nat := 64
  const WORD_VALUES: nat := 0x1_0000_0000_0000_0000

  /** `std::uint64_t`. */
  type word = w: int | 0 <= w < WORD_VALUES

  const WORD_MAX: word := 0xFFFF_FFFF_FFFF_FFFF

  function ShiftLeft(x: nat, k: nat): nat {
    if k == 0 then x else 2 * ShiftLeft(x, k - 1)
  }

  function ShiftRight(x: nat, k: nat): nat {
    if k == 0 then x else ShiftRight(x / 2, k - 1)
  }

  /** `~w` on 64 bits. */
  function Not(w: word): word { WORD_MAX - w }

  function OrWords(x: word, y: word): word {
    WordWidth();
    OrBound(x, y, 64);
    Or(x, y)
  }

  function AndWords(x: word, y: word): word {
    AndBound(x, y);
    And(x, y)
  }

  /** `std::uint64_t(1) << i`. */
  function Unit(i: nat): word
    requires i < WORD_BITS
  {
    UnitBound(i);
    ShiftLeft(1, i)
  }

  function ShiftWordRight(x: word, k: nat): word {
    ShiftRightBound(x, k);
    ShiftRight(x, k)
  }

  /** `std::countl_zero` on a word of `n` bits. */
  function CountlZero(x: nat, n: nat): (r: nat)
    ensures r <= n
  {
    if n == 0 || Bit(x, n - 1) then 0 else 1 + CountlZero(x, n - 1)
  }

  /** `std::countl_one` on a word of `n` bits. */
  function CountlOne(x: nat, n: nat): (r: nat)
    ensures r <= n
  {
    if n == 0 || !Bit(x, n - 1) then 0 else 1 + CountlOne(x, n - 1)
  }

  lemma WordWidth()
    ensures Pow2(64) == WORD_VALUES && Pow2(8) == 256
  {
    hide Pow2;
    ByteWidth();
    PowSum(8, 8);
    PowSum(16, 16);
    PowSum(32, 32);
  }

  lemma ByteWidth()
    ensures Pow2(8) == 256
  {
  }

  lemma {:induction false} PowSum(a: nat, b: nat)
    ensures Pow2(a + b) == Pow2(a) * Pow2(b)
    decreases b
  {
    if b > 0 {
      PowSum(a, b - 1);
    }
  }

  lemma {:induction false} BitOfShiftLeft(x: nat, k: nat, i: nat)
    ensures Bit(ShiftLeft(x, k), i) == (k <= i && Bit(x, i - k))
    decreases k
  {
    if k > 0 && i > 0 {
      BitOfShiftLeft(x, k - 1, i - 1);
    }
  }

  lemma {:induction false} BitOfShiftRight(x: nat, k: nat, i: nat)
    ensures Bit(ShiftRight(x, k), i) == Bit(x, i + k)
    decreases k
  {
    if k > 0 {
      BitOfShiftRight(x / 2, k - 1, i);
    }
  }

  lemma {:induction false} ShiftLeftBound(x: nat, k: nat, n: nat)
    requires x < Pow2(n)
    ensures ShiftLeft(x, k) < Pow2(n + k)
  {
    if k > 0 {
      ShiftLeftBound(x, k - 1, n);
    }
  }

  lemma {:induction false} ShiftRightBound(x: nat, k: nat)
    ensures ShiftRight(x, k) <= x
    decreases k
  {
    if k > 0 {
      ShiftRightBound(x / 2, k - 1);
    }
  }

  lemma {:induction false} BitOfComplement(x: nat, n: nat, i: nat)
    requires x < Pow2(n)
    ensures Bit(Pow2(n) - 1 - x, i) == (i < n && !Bit(x, i))
    decreases n
  {
    if n == 0 {
      ZeroHasNoBits(i);
    } else {
      var c := Pow2(n) - 1 - x;
      assert c / 2 == Pow2(n - 1) - 1 - x / 2 && c % 2 == 1 - x % 2;
      if i > 0 {
        BitOfComplement(x / 2, n - 1, i - 1);
      }
    }
  }

  lemma BitOfNot(w: word, i: nat)
    ensures Bit(Not(w), i) == (i < WORD_BITS && !Bit(w, i))
  {
    WordWidth();
    BitOfComplement(w, 64, i);
  }

  /** Every one of the low `n` bits is set. */
  lemma BitOfOnes(n: nat, i: nat)
    ensures Bit(Pow2(n) - 1, i) == (i < n)
  {
    BitOfComplement(0, n, i);
    ZeroHasNoBits(i);
  }

  lemma {:induction false} BitBeyond(x: nat, n: nat, i: nat)
    requires x < Pow2(n) && n <= i
    ensures !Bit(x, i)
    decreases n
  {
    if n == 0 {
      ZeroHasNoBits(i);
    } else {
      BitBeyond(x / 2, n - 1, i - 1);
    }
  }

  /** Numbers of `n` bits are equal when their bits are. */
  lemma {:induction false} SameBits(x: nat, y: nat, n: nat)
    requires x < Pow2(n) && y < Pow2(n)
    requires forall i :: 0 <= i < n ==> Bit(x, i) == Bit(y, i)
    ensures x == y
    decreases n
  {
    if n > 0 {
      forall i | 0 <= i < n - 1
        ensures Bit(x / 2, i) == Bit(y / 2, i)
      {
        assert Bit(x, i + 1) == Bit(y, i + 1);
      }
      SameBits(x / 2, y / 2, n - 1);
      assert Bit(x, 0) == Bit(y, 0);
    }
  }

  lemma NoBitsIsZero(x: nat, n: nat)
    requires x < Pow2(n) && forall i :: 0 <= i < n ==> !Bit(x, i)
    ensures x == 0
  {
    forall i | 0 <= i < n
      ensures Bit(x, i) == Bit(0, i)
    {
      ZeroHasNoBits(i);
    }
    SameBits(x, 0, n);
  }

  lemma {:induction false} AndBound(x: nat, y: nat)
    ensures And(x, y) <= x
  {
    if x != 0 && y != 0 {
      AndBound(x / 2, y / 2);
    }
  }

  lemma {:induction false} OrBound(x: nat, y: nat, n: nat)
    requires x < Pow2(n) && y < Pow2(n)
    ensures Or(x, y) < Pow2(n)
    decreases n
  {
    if n > 0 && (x > 0 || y > 0) {
      OrBound(x / 2, y / 2, n - 1);
    }
  }

  /** `w & 1 << i` is not zero exactly when bit `i` is set. */
  lemma SingleBit(w: word, i: nat)
    requires i < WORD_BITS
    ensures AndWords(w, Unit(i)) != 0 <==> Bit(w, i)
  {
    WordWidth();
    AndBound(w, ShiftLeft(1, i));
    forall j | 0 <= j < 64
      ensures Bit(And(w, ShiftLeft(1, i)), j) == (j == i && Bit(w, i))
    {
      BitOfAnd(w, ShiftLeft(1, i), j);
      BitOfUnit(i, j);
    }
    if And(w, ShiftLeft(1, i)) == 0 {
      ZeroHasNoBits(i);
    } else if !Bit(w, i) {
      NoBitsIsZero(And(w, ShiftLeft(1, i)), 64);
    }
  }

  lemma BitOfUnit(i: nat, j: nat)
    ensures Bit(ShiftLeft(1, i), j) == (j == i)
  {
    BitOfShiftLeft(1, i, j);
    if j > i {
      ZeroHasNoBits(j - i - 1);
    }
  }

  lemma UnitBound(i: nat)
    requires i < WORD_BITS
    ensures ShiftLeft(1, i) < WORD_VALUES
  {
    WordWidth();
    ShiftLeftBound(1, i, 1);
    PowGrows(i + 1, 64);
  }

  lemma {:induction false} PowGrows(a: nat, b: nat)
    requires a <= b
    ensures Pow2(a) <= Pow2(b)
    decreases b
  {
    if a < b {
      PowGrows(a, b - 1);
    }
  }

  /** The leading zeros end at the highest bit that is set. */
  lemma {:induction false} LeadingZeros(x: nat, n: nat)
    ensures var z := CountlZero(x, n);
            && (z < n ==> Bit(x, n - 1 - z))
            && forall i :: n - z <= i < n ==> !Bit(x, i)
  {
    if n > 0 && !Bit(x, n - 1) {
      LeadingZeros(x, n - 1);
    }
  }

  lemma {:induction false} LeadingOnes(x: nat, n: nat)
    ensures var z := CountlOne(x, n);
            && (z < n ==> !Bit(x, n - 1 - z))
            && forall i :: n - z <= i < n ==> Bit(x, i)
  {
    if n > 0 && Bit(x, n - 1) {
      LeadingOnes(x, n - 1);
    }
  }

  /** The bits among the low `n` that are set, counted one by one. */
  function Ones(x: nat, n: nat): nat {
    if n == 0 then 0 else Ones(x, n - 1) + if Bit(x, n - 1) then 1 else 0
  }

  lemma {:induction false} OnesOfHalf(x: nat, n: nat)
    requires n > 0
    ensures Ones(x, n) == x % 2 + Ones(x / 2, n - 1)
  {
    if n > 1 {
      OnesOfHalf(x, n - 1);
    }
  }

  lemma {:induction false} PopCountIsOnes(x: nat, n: nat)
    requires x < Pow2(n)
    ensures PopCount(x) == Ones(x, n)
    decreases n
  {
    if n == 0 {
    } else {
      OnesOfHalf(x, n);
      PopCountIsOnes(x / 2, n - 1);
    }
  }
}
