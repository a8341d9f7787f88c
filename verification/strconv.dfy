/** Decimal rendering and parsing of integers as Go's `strconv` package does
    it: `FormatInt(n, 10)` (also what `fmt`'s `%d` prints) and `Atoi`, whose
    parse errors the tool discards, so a text that is not a number reads as 0.
    Go's `int` is taken to be 64 bits wide. */
module Strconv {

  const MaxInt64: int := 0x7fff_ffff_ffff_ffff
  const MinInt64: int := -0x8000_0000_0000_0000
  const MaxUint64: int := 0xffff_ffff_ffff_ffff

  predicate IsDigit(c: char) {
    '0' <= c <= '9'
  }

  predicate AllDigits(s: string) {
    forall i :: 0 <= i < |s| ==> IsDigit(s[i])
  }

  function DigitValue(c: char): (d: nat)
    requires IsDigit(c)
    ensures d < 10
  {
    c as int - '0' as int
  }

  function DigitChar(d: nat): (c: char)
    requires d < 10
    ensures IsDigit(c) && DigitValue(c) == d
  {
    ('0' as int + d) as char
  }

  function Pow10(k: nat): (p: nat)
    ensures p >= 1
  {
    if k == 0 then 1 else 10 * Pow10(k - 1)
  }

  /** The number a string of decimal digits denotes, most significant first. */
  function Value(s: string): nat
    requires AllDigits(s)
  {
    if |s| == 0 then 0 else Value(s[..|s| - 1]) * 10 + DigitValue(s[|s| - 1])
  }

  /** A string of `k` digits denotes less than 10^k. */
  lemma {:induction false} ValueBelowPow10(s: string)
    requires AllDigits(s)
    ensures Value(s) < Pow10(|s|)
  {
    if |s| > 0 {
      ValueBelowPow10(s[..|s| - 1]);
    }
  }

  /** Shortest decimal digits of `n`, without leading zeros. */
  function Digits(n: nat): (s: string)
    ensures |s| >= 1 && AllDigits(s)
    ensures Value(s) == n
    ensures |s| > 1 ==> s[0] != '0'
    decreases n
  {
    if n < 10 then [DigitChar(n)]
    else
      var s := Digits(n / 10) + [DigitChar(n % 10)];
      assert s[..|s| - 1] == Digits(n / 10);
      s
  }

  /** `strconv.FormatInt(n, 10)`: an optional minus sign and the digits of |n|. */
  function FormatInt(n: int): (s: string)
    ensures |s| >= 1
    ensures s[0] == '-' <==> n < 0
    ensures n >= 0 ==> AllDigits(s) && Value(s) == n
    ensures n < 0 ==> AllDigits(s[1..]) && |s| >= 2 && Value(s[1..]) == -n
    ensures forall i :: 0 <= i < |s| ==> IsDigit(s[i]) || (i == 0 && s[i] == '-')
    ensures n >= 0 && |s| > 1 ==> s[0] != '0'
    ensures n < 0 ==> s[1] != '0'
  {
    if n < 0 then
      var d := Digits(-n);
      var s := "-" + d;
      assert s[1..] == d;
      assert |d| == 1 ==> Value(d) == DigitValue(d[0]);
      s
    else Digits(n)
  }

  /** The digits of a number below 10^k number at most k. */
  lemma {:induction false} DigitsLength(n: nat, k: nat)
    requires n < Pow10(k)
    ensures |Digits(n)| <= k || (k == 0 && |Digits(n)| == 1)
    decreases n
  {
    assert k < 2 ==> Pow10(k) <= 10;
    if n >= 10 {
      DigitsLength(n / 10, k - 1);
    }
  }

  lemma Pow10Eighteen()
    ensures Pow10(17) == 100_000_000_000_000_000
    ensures Pow10(18) == 1_000_000_000_000_000_000
  {
    assert Pow10(3) == 1000;
    assert Pow10(6) == 1000_000;
    assert Pow10(9) == 1000_000_000;
    assert Pow10(12) == 1000_000_000_000;
    assert Pow10(15) == 1000_000_000_000_000;
  }

  /** The text after an optional leading sign. */
  function Unsigned(s: string): string {
    if |s| > 0 && (s[0] == '-' || s[0] == '+') then s[1..] else s
  }

  predicate Negative(s: string) {
    |s| > 0 && s[0] == '-'
  }

  /** `Atoi`'s fast path, taken for texts of 1 to 18 bytes: sign, then
      digits only; anything else is a syntax error, read here as 0. */
  function AtoiFast(s: string): (n: int)
    requires 0 < |s| < 19
    ensures -(Pow10(18) as int) < n < Pow10(18)
  {
    var body := Unsigned(s);
    if |body| == 0 || !AllDigits(body) then 0
    else
      ValueBelowPow10(body);
      PowMonotone(|body|, 18);
      if Negative(s) then -(Value(body) as int) else Value(body)
  }

  lemma {:induction false} PowMonotone(j: nat, k: nat)
    requires j <= k
    ensures Pow10(j) <= Pow10(k)
    decreases k
  {
    if j < k {
      PowMonotone(j, k - 1);
    }
  }

  datatype UintScan = Scanned(value: nat) | SyntaxError | RangeError

  /** Smallest number whose tenfold exceeds the largest uint64. */
  const UintCutoff: int := MaxUint64 / 10 + 1

  /** `ParseUint(s, 10, 64)`'s digit loop from accumulator `acc`: a
      non-digit is a syntax error, and the first digit that would overflow 64
      bits is a range error, even when a non-digit follows it. */
  function ScanUint(s: string, acc: nat): (r: UintScan)
    requires acc <= MaxUint64
    ensures r.Scanned? ==> r.value <= MaxUint64
    decreases |s|
  {
    if |s| == 0 then Scanned(acc)
    else if !IsDigit(s[0]) then SyntaxError
    else if acc >= UintCutoff then RangeError
    else
      var next := acc * 10 + DigitValue(s[0]);
      if next > MaxUint64 then RangeError else ScanUint(s[1..], next)
  }

  /** `ParseInt(s, 10, 0)` as `Atoi`'s slow path uses it: a syntax error
      reads as 0, an out-of-range value is clamped to the int64 bounds. */
  function ParseInt(s: string): (n: int)
    ensures MinInt64 <= n <= MaxInt64
  {
    var body := Unsigned(s);
    if |body| == 0 then 0
    else
      match ScanUint(body, 0)
      case SyntaxError => 0
      case RangeError => if Negative(s) then MinInt64 else MaxInt64
      case Scanned(u) =>
        if !Negative(s) && u > MaxInt64 then MaxInt64
        else if Negative(s) && u > MaxInt64 + 1 then MinInt64
        else if Negative(s) then -(u as int) else u
  }

  /** `strconv.Atoi(s)` with its error ignored. */
  function Atoi(s: string): (n: int)
    ensures MinInt64 <= n <= MaxInt64
    ensures |s| < 19 && !(|Unsigned(s)| > 0 && AllDigits(Unsigned(s))) ==> n == 0
    ensures 0 < |s| < 19 && |Unsigned(s)| > 0 && AllDigits(Unsigned(s)) ==>
              n == (if Negative(s) then -(Value(Unsigned(s)) as int) else Value(Unsigned(s)))
  {
    if 0 < |s| < 19 then
      Pow10Eighteen();
      AtoiFast(s)
    else ParseInt(s)
  }

  /** Peeling the leading digit off a digit string. */
  lemma {:induction false} ValueCons(c: char, t: string)
    requires IsDigit(c) && AllDigits(t)
    ensures AllDigits([c] + t)
    ensures Value([c] + t) == DigitValue(c) * Pow10(|t|) + Value(t)
    decreases |t|
  {
    var s := [c] + t;
    if |t| > 0 {
      var t' := t[..|t| - 1];
      assert s[..|s| - 1] == [c] + t';
      ValueCons(c, t');
      assert Value(s) == Value([c] + t') * 10 + DigitValue(t[|t| - 1]);
      assert Value(t) == Value(t') * 10 + DigitValue(t[|t| - 1]);
      assert Pow10(|t|) == 10 * Pow10(|t'|);
      ShiftDigit(DigitValue(c), Pow10(|t'|), Value(t'), DigitValue(t[|t| - 1]));
    }
  }

  /** The slow path's digit loop computes the value of a digit string that
      fits in 64 bits. */
  lemma {:induction false} ScanUintDigits(s: string, acc: nat)
    requires AllDigits(s) && acc <= MaxUint64
    requires acc * Pow10(|s|) + Value(s) <= MaxUint64
    ensures ScanUint(s, acc) == Scanned(acc * Pow10(|s|) + Value(s))
    decreases |s|
  {
    if |s| > 0 {
      var t := s[1..];
      assert s == [s[0]] + t;
      ValueCons(s[0], t);
      var p := Pow10(|t|);
      var d := DigitValue(s[0]);
      assert Pow10(|s|) == 10 * p;
      var next := acc * 10 + d;
      assert next * p + Value(t) == acc * Pow10(|s|) + Value(s) by {
        Distribute(acc * 10, d, p);
        Associate(acc, 10, p);
      }
      NoShrink(next, p);
      NoShrink(acc * 10, p);
      ScanUintDigits(t, next);
    }
  }

  lemma Distribute(a: nat, b: nat, p: nat)
    ensures (a + b) * p == a * p + b * p
  {
  }

  lemma ShiftDigit(d: nat, p: nat, v: nat, x: nat)
    ensures (d * p + v) * 10 + x == d * (10 * p) + (v * 10 + x)
  {
  }

  lemma Associate(a: nat, b: nat, c: nat)
    ensures a * (b * c) == a * b * c
  {
  }

  lemma NoShrink(a: nat, p: nat)
    requires p >= 1
    ensures a <= a * p
  {
  }

  /** `Atoi` reads back what `FormatInt` prints, for every 64-bit number. */
  lemma AtoiFormatInt(n: int)
    requires MinInt64 <= n <= MaxInt64
    ensures Atoi(FormatInt(n)) == n
  {
    var s := FormatInt(n);
    var body := Unsigned(s);
    if n < 0 {
      assert body == s[1..];
    } else {
      assert body == s;
    }
    if |s| < 19 {
      Pow10Eighteen();
    } else {
      ScanUintDigits(body, 0);
    }
  }

  /** A three-digit code prints as exactly its three digits. */
  lemma FormatThreeDigits(n: int)
    requires 100 <= n <= 999
    ensures FormatInt(n) == [DigitChar(n / 100), DigitChar(n / 10 % 10), DigitChar(n % 10)]
  {
    assert Digits(n / 100) == [DigitChar(n / 100)];
    assert Digits(n / 10) == [DigitChar(n / 100), DigitChar(n / 10 % 10)];
  }
}
