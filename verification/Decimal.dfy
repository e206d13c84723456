/** Decimal numerals: what `std::to_string` writes and what the bencode decoder takes for a number. */
module Decimal {
  import opened Common

  const ZERO: byte := 48
  const NINE: byte := 57
  const MINUS: byte := 45

  const INT64_MIN: int := -0x8000_0000_0000_0000
  const INT64_MAX: int := 0x7fff_ffff_ffff_ffff

  predicate IsInt64(n: int) { INT64_MIN <= n <= INT64_MAX }

  predicate IsDigit(b: byte) { ZERO <= b <= NINE }

  predicate AllDigits(s: seq<byte>) { forall k :: 0 <= k < |s| ==> IsDigit(s[k]) }

  function Digits(n: nat): (s: seq<byte>)
    ensures s != [] && AllDigits(s)
  {
    if n < 10 then [ZERO + n] else Digits(n / 10) + [ZERO + n % 10]
  }

  /** `std::to_string`. */
  function ToString(n: int): (s: seq<byte>)
    ensures s != []
  {
    if n < 0 then [MINUS] + Digits(-n) else Digits(n)
  }

  /** The number a run of digits stands for. */
  function ValueOf(s: seq<byte>): nat
    requires AllDigits(s)
  {
    if s == [] then 0 else 10 * ValueOf(s[..|s| - 1]) + (s[|s| - 1] - ZERO)
  }

  /** The longest prefix of digits. */
  function DigitRun(s: seq<byte>): (n: nat)
    ensures n <= |s| && AllDigits(s[..n])
    ensures n < |s| ==> !IsDigit(s[n])
  {
    if s == [] || !IsDigit(s[0]) then 0
    else
      var m := DigitRun(s[1..]);
      assert s[..m + 1] == [s[0]] + s[1..][..m];
      m + 1
  }

  datatype Scan = Scanned(value: int, consumed: nat) | NoNumber | OutOfRange(consumed: nat)

  /** `std::from_chars` for a 64-bit integer in base 10: an optional minus and as many digits as there are. */
  function FromChars(s: seq<byte>): Scan {
    var sign := if s != [] && s[0] == MINUS then 1 else 0;
    var run := DigitRun(s[sign..]);
    if run == 0 then NoNumber
    else
      var magnitude: int := ValueOf(s[sign..][..run]);
      var n: int := if sign == 1 then -magnitude else magnitude;
      if IsInt64(n) then Scanned(n, sign + run) else OutOfRange(sign + run)
  }

  function GetNumberIfValid(s: seq<byte>): Option<int> {
    if s == [] then None
    else if s[0] == ZERO && |s| != 1 then None
    else if |s| >= 2 && s[0] == MINUS && s[1] == ZERO then None
    else match FromChars(s)
      case Scanned(n, consumed) => if consumed == |s| then Some(n) else None
      case _ => None
  }

  lemma {:induction false} ValueOfDigits(n: nat)
    ensures ValueOf(Digits(n)) == n
    ensures Digits(n)[0] == ZERO ==> n == 0
  {
    if n >= 10 {
      ValueOfDigits(n / 10);
      assert Digits(n)[..|Digits(n)| - 1] == Digits(n / 10);
    }
  }

  /** Without a leading zero, a numeral is the one `std::to_string` writes. */
  lemma {:induction false} DigitsOfValue(s: seq<byte>)
    requires s != [] && AllDigits(s) && (s[0] == ZERO ==> |s| == 1)
    ensures Digits(ValueOf(s)) == s
    ensures ValueOf(s) == 0 ==> s == [ZERO]
  {
    var front := s[..|s| - 1];
    if front == [] {
      assert ValueOf(front) == 0;
      assert s == [s[0]];
    } else {
      DigitsOfValue(front);
      assert ValueOf(front) > 0;
      assert ValueOf(s) / 10 == ValueOf(front);
      assert s == front + [s[|s| - 1]];
    }
  }

  lemma {:induction false} RunOfDigits(s: seq<byte>)
    requires AllDigits(s)
    ensures DigitRun(s) == |s|
  {
    if s != [] { RunOfDigits(s[1..]); }
  }

  lemma WrittenNumberIsRead(n: int)
    requires IsInt64(n)
    ensures GetNumberIfValid(ToString(n)) == Some(n)
  {
    var s := ToString(n);
    var magnitude := if n < 0 then -n else n;
    var digits := Digits(magnitude);
    var sign := if n < 0 then 1 else 0;
    assert s[sign..] == digits;
    RunOfDigits(digits);
    ValueOfDigits(magnitude);
    assert digits[..|digits|] == digits;
    if n >= 0 && s[0] == ZERO { assert n == 0; }
  }

  /** The decoder takes exactly the numerals `std::to_string` writes for 64-bit integers. */
  lemma NumberIsCanonical(s: seq<byte>, n: int)
    ensures GetNumberIfValid(s) == Some(n) <==> IsInt64(n) && s == ToString(n)
  {
    if IsInt64(n) && s == ToString(n) { WrittenNumberIsRead(n); }
    if GetNumberIfValid(s) == Some(n) {
      var sign := if s[0] == MINUS then 1 else 0;
      var digits := s[sign..];
      assert digits[..|digits|] == digits;
      DigitsOfValue(digits);
      assert s == (if sign == 1 then [MINUS] else []) + digits;
    }
  }
}
