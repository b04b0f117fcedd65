/** Decimal rendering and parsing of integers (funcLenInt, funcInt2Char, funcChar2Int),
    restricted to what the derivation uses: `%d` of an int and `%d` scans of digit strings. */
module Decimal {
  import opened OtpConstants

  function Pow10(e: nat): (p: nat)
    ensures p >= 1
  {
    if e == 0 then 1 else 10 * Pow10(e - 1)
  }

  /** Number of decimal digits of n; zero has one. */
  function DigitCount(n: nat): (len: nat)
    ensures 1 <= len
    ensures n < Pow10(len)
    ensures len == 1 || Pow10(len - 1) <= n
  {
    if n < 10 then 1 else 1 + DigitCount(n / 10)
  }

  /** funcLenInt: the number of characters `%d` prints for i, its sign included. */
  function LenInt(i: int): (len: nat)
    ensures 1 <= len
    ensures i < 0 ==> 2 <= len
    ensures -(Pow10(len - 1) as int) < i < Pow10(len)
  {
    if i < 0 then 1 + DigitCount(-i) else DigitCount(i)
  }

  /** The decimal digits of n, most significant first. */
  function DigitsOf(n: nat): (ds: seq<int>)
    ensures |ds| == DigitCount(n)
    ensures forall k :: 0 <= k < |ds| ==> 0 <= ds[k] <= 9
  {
    if n < 10 then [n] else DigitsOf(n / 10) + [n % 10]
  }

  /** Digits appended one at a time to an accumulator, `acc * 10 + d`. */
  function FoldDigits(acc: int, ds: seq<int>): int
    decreases |ds|
  {
    if ds == [] then acc else FoldDigits(acc * 10 + ds[0], ds[1..])
  }

  lemma {:induction false} FoldDigitsSnoc(acc: int, ds: seq<int>, d: int)
    ensures FoldDigits(acc, ds + [d]) == FoldDigits(acc, ds) * 10 + d
    decreases |ds|
  {
    if ds != [] {
      assert (ds + [d])[1..] == ds[1..] + [d];
      FoldDigitsSnoc(acc * 10 + ds[0], ds[1..], d);
    }
  }

  /** Folding the digits of n gives n back. */
  lemma {:induction false} DigitsOfValue(n: nat)
    ensures FoldDigits(0, DigitsOf(n)) == n
  {
    if n >= 10 {
      DigitsOfValue(n / 10);
      FoldDigitsSnoc(0, DigitsOf(n / 10), n % 10);
    }
  }

  /** Digit by digit no larger, from an accumulator no larger, folds to a value no larger;
      non-negative digits onto a non-negative accumulator fold to a non-negative value. */
  lemma {:induction false} FoldDigitsMonotone(a: int, b: int, xs: seq<int>, ys: seq<int>)
    requires a <= b && |xs| == |ys|
    requires forall k :: 0 <= k < |xs| ==> xs[k] <= ys[k]
    ensures FoldDigits(a, xs) <= FoldDigits(b, ys)
    decreases |xs|
  {
    if xs != [] {
      FoldDigitsMonotone(a * 10 + xs[0], b * 10 + ys[0], xs[1..], ys[1..]);
    }
  }

  predicate IsDigit(c: char) {
    '0' <= c <= '9'
  }

  predicate IsDigits(s: seq<char>) {
    forall k :: 0 <= k < |s| ==> IsDigit(s[k])
  }

  function DigitChar(d: int): (c: char)
    requires 0 <= d <= 9
    ensures IsDigit(c) && c as int - '0' as int == d
  {
    ('0' as int + d) as char
  }

  /** `%d` of a non-negative number. */
  function NatToDecimal(n: nat): (s: string)
    ensures |s| == DigitCount(n)
    ensures IsDigits(s)
  {
    if n < 10 then [DigitChar(n)] else NatToDecimal(n / 10) + [DigitChar(n % 10)]
  }

  /** funcInt2Char: `%d` of any int, a minus sign first when it is negative. */
  function IntToDecimal(i: int): (s: string)
    ensures |s| == LenInt(i)
    ensures i < 0 <==> s != [] && s[0] == '-'
  {
    if i < 0 then "-" + NatToDecimal(-i) else NatToDecimal(i)
  }

  /** The value of a digit string; leading zeros count for nothing. */
  function DecimalValue(s: string): nat
    requires IsDigits(s)
  {
    if s == [] then 0 else DecimalValue(s[..|s| - 1]) * 10 + (s[|s| - 1] as int - '0' as int)
  }

  lemma {:induction false} DecimalValueBound(s: string)
    requires IsDigits(s)
    ensures DecimalValue(s) < Pow10(|s|)
  {
    if s != [] {
      DecimalValueBound(s[..|s| - 1]);
    }
  }

  lemma {:induction false} LeadingZero(s: string)
    requires IsDigits(s)
    ensures IsDigits(['0'] + s) && DecimalValue(['0'] + s) == DecimalValue(s)
  {
    if s != [] {
      assert (['0'] + s)[..|s|] == ['0'] + s[..|s| - 1];
      LeadingZero(s[..|s| - 1]);
    }
  }

  /** Scanning the printed form of a non-negative number gives the number back. */
  lemma {:induction false} DecimalRoundTrip(n: nat)
    ensures IsDigits(NatToDecimal(n)) && DecimalValue(NatToDecimal(n)) == n
  {
    if n >= 10 {
      var s := NatToDecimal(n);
      assert s[..|s| - 1] == NatToDecimal(n / 10);
      DecimalRoundTrip(n / 10);
    }
  }

  /** funcChar2Int: `sscanf("%d")` of a digit string. A string with no digits matches
      nothing, and the target keeps its `prior` value. */
  function ScanInt(s: string, prior: int): (r: int)
    requires IsDigits(s)
    requires |s| <= 9
    ensures s == [] ==> r == prior
    ensures s != [] ==> 0 <= r < Pow10(|s|)
  {
    if s == [] then prior else DecimalValueBound(s); DecimalValue(s)
  }

  /** Printing then scanning a non-negative int is the identity. */
  lemma PrintScanRoundTrip(n: nat, prior: int)
    requires n < 1_000_000_000
    ensures |IntToDecimal(n)| <= 9 && ScanInt(IntToDecimal(n), prior) == n
  {
    DecimalRoundTrip(n);
    var len := DigitCount(n);
    assert Pow10(9) == 1_000_000_000;
    if len > 9 {
      PowMonotone(9, len - 1);
    }
  }

  lemma {:induction false} PowMonotone(i: nat, j: nat)
    requires i <= j
    ensures Pow10(i) <= Pow10(j)
  {
    if i < j {
      PowMonotone(i, j - 1);
    }
  }
}
