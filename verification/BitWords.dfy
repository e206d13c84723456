/** Bitwise arithmetic on unsigned words, written on the binary digits of a natural number. */
module BitWords {

  function Pow2(n: nat): (r: nat)
    ensures r > 0
  {
    if n == 0 then 1 else 2 * Pow2(n - 1)
  }

  /** Digit `i` of `x`, counted from the least significant. */
  predicate Bit(x: nat, i: nat)
    decreases i
  {
    if i == 0 then x % 2 == 1 else Bit(x / 2, i - 1)
  }

  function And(x: nat, y: nat): nat {
    if x == 0 || y == 0 then 0
    else 2 * And(x / 2, y / 2) + if x % 2 == 1 && y % 2 == 1 then 1 else 0
  }

  function Or(x: nat, y: nat): nat
    decreases x + y
  {
    if x == 0 && y == 0 then 0
    else 2 * Or(x / 2, y / 2) + if x % 2 == 1 || y % 2 == 1 then 1 else 0
  }

  /** `std::popcount`. */
  function PopCount(x: nat): nat {
    if x == 0 then 0 else x % 2 + PopCount(x / 2)
  }

  lemma {:induction false} BitOfAnd(x: nat, y: nat, i: nat)
    ensures Bit(And(x, y), i) == (Bit(x, i) && Bit(y, i))
    decreases i
  {
    if x == 0 || y == 0 {
      ZeroHasNoBits(i);
    } else if i > 0 {
      BitOfAnd(x / 2, y / 2, i - 1);
    }
  }

  lemma {:induction false} BitOfOr(x: nat, y: nat, i: nat)
    ensures Bit(Or(x, y), i) == (Bit(x, i) || Bit(y, i))
    decreases i
  {
    if x == 0 && y == 0 {
      ZeroHasNoBits(i);
    } else if i > 0 {
      BitOfOr(x / 2, y / 2, i - 1);
    }
  }

  lemma {:induction false} ZeroHasNoBits(i: nat)
    ensures !Bit(0, i)
  {
    if i > 0 { ZeroHasNoBits(i - 1); }
  }

  /** For a power of two, masking with `n - 1` is the remainder by `n`. */
  lemma {:induction false} SingleBitMask(x: nat, n: nat)
    requires PopCount(n) == 1
    ensures And(x, n - 1) == x % n
    decreases n
  {
    if n == 1 {
    } else if n % 2 == 1 {
      assert PopCount(n / 2) == 0 && n / 2 > 0;
      PopCountPositive(n / 2);
    } else {
      var m := n / 2;
      SingleBitMask(x / 2, m);
      assert (n - 1) / 2 == m - 1 && (n - 1) % 2 == 1;
      HalfModulo(x, m);
    }
  }

  lemma {:induction false} PopCountPositive(x: nat)
    requires x > 0
    ensures PopCount(x) > 0
  {
    if x % 2 == 0 { PopCountPositive(x / 2); }
  }

  lemma HalfModulo(x: nat, m: nat)
    requires m > 0
    ensures x % (2 * m) == 2 * ((x / 2) % m) + x % 2
  {
    var q, r := (x / 2) / m, (x / 2) % m;
    assert x / 2 == q * m + r;
    assert x == q * (2 * m) + (2 * r + x % 2);
    UniqueRemainder(x, 2 * m, q, 2 * r + x % 2);
  }

  lemma UniqueRemainder(x: nat, n: nat, q: nat, r: nat)
    requires n > 0 && r < n && x == q * n + r
    ensures x % n == r && x / n == q
  {
    var q', r' := x / n, x % n;
    assert q' * n + r' == q * n + r;
    Distribute(q', q, n);
    if q' > q {
      AtLeast(q' - q, n);
    } else if q' < q {
      AtLeast(q - q', n);
      Distribute(q, q', n);
    }
  }

  lemma Distribute(a: int, b: int, n: int)
    ensures (a - b) * n == a * n - b * n
  {
  }

  lemma AtLeast(a: nat, n: nat)
    requires a >= 1
    ensures a * n >= n
  {
  }
}
