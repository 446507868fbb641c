/**
 * The C library services the parsers lean on: `strchr`, `strtol`, `strtod` and
 * `round`. Each works on a position `i` inside a string, the way the C code
 * passes a pointer into the middle of a buffer; the end of a C string is the
 * end of the sequence.
 */
module Scan {
  import opened Results

  predicate IsDigit(c: char) { '0' <= c <= '9' }

  /** True when the character at `i` (if any) cannot extend a run of digits. */
  predicate StopsDigitsAt(s: string, i: nat) { i >= |s| || !IsDigit(s[i]) }

  /** True when `rest` cannot extend a run of digits written just before it. */
  predicate StopsDigits(rest: string) { |rest| == 0 || !IsDigit(rest[0]) }

  function DigitValue(c: char): nat
  {
    if IsDigit(c) then (c as int) - ('0' as int) else 0
  }

  function DigitChar(d: nat): (c: char)
    requires d < 10
    ensures IsDigit(c) && DigitValue(c) == d
  {
    (d + '0' as int) as char
  }

  function Pow10(n: nat): (p: nat)
    ensures p >= 1
  {
    if n == 0 then 1 else 10 * Pow10(n - 1)
  }

  /** The number of decimal digits in `s` from position `i` on, up to the first non-digit. */
  function DigitsFrom(s: string, i: nat): (n: nat)
    requires i <= |s|
    ensures i + n <= |s|
    ensures StopsDigitsAt(s, i + n)
    ensures n > 0 ==> IsDigit(s[i + n - 1])
    decreases |s| - i
  {
    if i < |s| && IsDigit(s[i]) then 1 + DigitsFrom(s, i + 1) else 0
  }

  /** The value of the digits `s[i..j]`, most significant first. */
  function ValueOf(s: string, i: nat, j: nat): nat
    requires i <= j <= |s|
    decreases j - i
  {
    if j == i then 0 else 10 * ValueOf(s, i, j - 1) + DigitValue(s[j - 1])
  }

  /** One optional sign character at `i`, as `strtol` and `strtod` accept. */
  function SignAt(s: string, i: nat): nat
  {
    if i < |s| && (s[i] == '+' || s[i] == '-') then 1 else 0
  }

  /** A minus sign at `i`. */
  predicate MinusAt(s: string, i: nat) { i < |s| && s[i] == '-' }

  /** What a number scanner returns: the number and how many characters it consumed. */
  datatype Scanned<T> = Scanned(value: T, length: nat)

  /**
   * `strtol(s + i, &end, 10)`: an optional sign and then the longest run of
   * decimal digits. `None` is the case `end == s + i`, nothing converted.
   */
  function ScanLong(s: string, i: nat): (r: Option<Scanned<int>>)
    requires i <= |s|
    ensures r.Some? ==> 0 < r.value.length && i + r.value.length <= |s|
    ensures r.Some? ==> IsDigit(s[i + r.value.length - 1]) && StopsDigitsAt(s, i + r.value.length)
    ensures r.None? ==> StopsDigitsAt(s, i)
  {
    var k := SignAt(s, i);
    var n := DigitsFrom(s, i + k);
    if n == 0 then None
    else
      var v: int := ValueOf(s, i + k, i + k + n);
      Some(Scanned(if MinusAt(s, i) then -v else v, k + n))
  }

  /**
   * The value of `n` digits after a decimal point whose digits read `digits`
   * as a whole number: `digits / 10^n`, one tenth per digit.
   */
  function Fraction(digits: nat, n: nat): real
  {
    if n == 0 then digits as real else Fraction(digits, n - 1) / 10.0
  }

  /**
   * The fractional part `strtod` reads at `p`: a point and the digits after it,
   * as their value and the number of characters, or nothing when `p` holds no point.
   */
  function FractionAt(s: string, p: nat): (r: Scanned<real>)
    requires p <= |s|
    ensures p + r.length <= |s|
  {
    if p < |s| && s[p] == '.' then
      var f := DigitsFrom(s, p + 1);
      Scanned(Fraction(ValueOf(s, p + 1, p + 1 + f), f), 1 + f)
    else Scanned(0.0, 0)
  }

  /**
   * `strtod(s + i, &end)` restricted to plain decimal notation: an optional
   * sign, digits, optionally a point and more digits, with at least one digit
   * in all.
   */
  function ScanDouble(s: string, i: nat): (r: Option<Scanned<real>>)
    requires i <= |s|
    ensures r.Some? ==> 0 < r.value.length && i + r.value.length <= |s|
  {
    var k := SignAt(s, i);
    var m := DigitsFrom(s, i + k);
    var p := i + k + m;
    var frac := FractionAt(s, p);
    Assembled(MinusAt(s, i), k, m, ValueOf(s, i + k, p), frac)
  }

  /**
   * What `strtod` makes of the parts it read: a sign, `k` sign characters,
   * `m` whole digits of value `whole`, and the fraction `frac`. Nothing is
   * read when there is no digit at all.
   */
  function Assembled(neg: bool, k: nat, m: nat, whole: nat, frac: Scanned<real>): (r: Option<Scanned<real>>)
    ensures r.Some? <==> m > 0 || frac.length > 1
    ensures r.Some? ==> r.value.length == k + m + frac.length
  {
    if m == 0 && frac.length <= 1 then None
    else Some(Scanned(Signed(neg, whole as real + frac.value), k + m + frac.length))
  }

  /** `strchr(s + from, c)`: the first position at or after `from` holding `c`. */
  function Find(s: string, c: char, from: nat): (r: Option<nat>)
    decreases |s| - from
    ensures r.Some? ==> from <= r.value < |s| && s[r.value] == c
    ensures r.Some? ==> forall j :: from <= j < r.value ==> s[j] != c
    ensures r.None? ==> forall j :: from <= j < |s| ==> s[j] != c
  {
    if from >= |s| then None
    else if s[from] == c then Some(from)
    else Find(s, c, from + 1)
  }

  /**
   * C's `round`: the nearest integer, halfway cases away from zero. The two
   * postconditions determine the result: it is within one half of `x`, and
   * at an exact half it is the one of larger magnitude.
   */
  function RoundHalfAway(x: real): (r: int)
    ensures x - 0.5 <= r as real <= x + 0.5
    ensures (r as real - x == 0.5 || x - r as real == 0.5) ==> (x >= 0.0 ==> r as real > x) && (x < 0.0 ==> r as real < x)
  {
    if x >= 0.0 then (x + 0.5).Floor else -((-x + 0.5).Floor)
  }

  /** Decimal text of a natural number, without leading zeros. */
  function NatToString(n: nat): (s: string)
    ensures |s| > 0 && IsDigit(s[0]) && IsDigit(s[|s| - 1])
  {
    if n < 10 then [DigitChar(n)] else NatToString(n / 10) + [DigitChar(n % 10)]
  }

  /** Decimal text of an integer, with a leading minus sign when negative. */
  function IntToString(x: int): (s: string)
    ensures |s| > 0 && (IsDigit(s[0]) || s[0] == '-')
    ensures IsDigit(s[|s| - 1])
  {
    if x < 0 then "-" + NatToString(-x) else NatToString(x)
  }

  /** Text placed after the digits does not change the value of the digits. */
  lemma {:induction false} ValueOfAppend(s: string, rest: string, i: nat, j: nat)
    requires i <= j <= |s|
    ensures ValueOf(s + rest, i, j) == ValueOf(s, i, j)
    decreases j - i
  {
    if j > i {
      ValueOfAppend(s, rest, i, j - 1);
    }
  }

  /** Text placed before the digits does not change their value either. */
  lemma {:induction false} ValueOfShift(a: string, s: string, i: nat, j: nat, i': nat, j': nat)
    requires i <= j <= |s| && i' == |a| + i && j' == |a| + j
    ensures ValueOf(a + s, i', j') == ValueOf(s, i, j)
    decreases j - i
  {
    if j > i {
      ValueOfShift(a, s, i, j - 1, i', j' - 1);
    }
  }

  /** A digit run stops where the digits stop, whatever follows a non-digit. */
  lemma {:induction false} DigitsFromAppend(s: string, rest: string, i: nat)
    requires i <= |s| && StopsDigits(rest)
    ensures DigitsFrom(s + rest, i) == DigitsFrom(s, i)
    decreases |s| - i
  {
    if i < |s| && IsDigit(s[i]) {
      DigitsFromAppend(s, rest, i + 1);
    }
  }

  /** A run that reaches the end of `s` continues into the digits of `t`. */
  lemma {:induction false} DigitsFromConcat(s: string, t: string, i: nat)
    requires i <= |s| && DigitsFrom(s, i) == |s| - i
    ensures DigitsFrom(s + t, i) == |s| - i + DigitsFrom(t, 0)
    decreases |s| - i
  {
    if i < |s| {
      DigitsFromConcat(s, t, i + 1);
    } else {
      DigitsFromShift(s, t, 0, |s|);
    }
  }

  /** A digit run is the same seen through text placed before it. */
  lemma {:induction false} DigitsFromShift(a: string, s: string, i: nat, i': nat)
    requires i <= |s| && i' == |a| + i
    ensures DigitsFrom(a + s, i') == DigitsFrom(s, i)
    decreases |s| - i
  {
    if i < |s| && IsDigit(s[i]) {
      DigitsFromShift(a, s, i + 1, i' + 1);
    }
  }

  /** `strtol` gives the same answer whether or not a non-digit tail follows. */
  lemma ScanLongAppend(s: string, rest: string, i: nat)
    requires i < |s| && StopsDigits(rest)
    ensures ScanLong(s + rest, i) == ScanLong(s, i)
  {
    var k := SignAt(s, i);
    assert SignAt(s + rest, i) == k;
    DigitsFromAppend(s, rest, i + k);
    ValueOfAppend(s, rest, i + k, i + k + DigitsFrom(s, i + k));
  }

  /** A character seen through text placed before it. */
  lemma CharShift(a: string, s: string, i: nat, j: nat)
    requires i <= |s| && j == |a| + i
    ensures j <= |a + s|
    ensures i < |s| ==> (a + s)[j] == s[i]
    ensures SignAt(a + s, j) == SignAt(s, i) && MinusAt(a + s, j) == MinusAt(s, i)
  {
  }

  /** Two texts that agree on the sign and the digits `strtol` reads give the same number. */
  lemma ScanLongAgree(w: string, j: nat, s: string, i: nat, k: nat, n: nat)
    requires i <= |s| && j <= |w|
    requires k == SignAt(s, i) == SignAt(w, j) && MinusAt(w, j) == MinusAt(s, i)
    requires n == DigitsFrom(s, i + k) == DigitsFrom(w, j + k)
    requires ValueOf(w, j + k, j + k + n) == ValueOf(s, i + k, i + k + n)
    ensures ScanLong(w, j) == ScanLong(s, i)
  {
  }

  /** `strtol` at a position gives the same answer whatever text lies before it. */
  lemma ScanLongShift(a: string, s: string, i: nat, j: nat)
    requires i <= |s| && j == |a| + i
    ensures ScanLong(a + s, j) == ScanLong(s, i)
  {
    var k := SignAt(s, i);
    CharShift(a, s, i, j);
    DigitsFromShift(a, s, i + k, j + k);
    var n := DigitsFrom(s, i + k);
    ValueOfShift(a, s, i + k, i + k + n, j + k, j + k + n);
    ScanLongAgree(a + s, j, s, i, k, n);
  }

  /** The fractional part is the same seen through text placed before it. */
  lemma FractionShift(a: string, s: string, p: nat, p': nat)
    requires p <= |s| && p' == |a| + p
    ensures FractionAt(a + s, p') == FractionAt(s, p)
  {
    CharShift(a, s, p, p');
    if p < |s| && s[p] == '.' {
      DigitsFromShift(a, s, p + 1, p' + 1);
      var f := DigitsFrom(s, p + 1);
      ValueOfShift(a, s, p + 1, p + 1 + f, p' + 1, p' + 1 + f);
    }
  }

  /** Two texts that agree on the sign, the digits and the fraction `strtod` reads give the same number. */
  lemma ScanDoubleAgree(w: string, j: nat, s: string, i: nat, k: nat, m: nat)
    requires i <= |s| && j <= |w|
    requires k == SignAt(s, i) == SignAt(w, j) && MinusAt(w, j) == MinusAt(s, i)
    requires m == DigitsFrom(s, i + k) == DigitsFrom(w, j + k)
    requires ValueOf(w, j + k, j + k + m) == ValueOf(s, i + k, i + k + m)
    requires FractionAt(w, j + k + m) == FractionAt(s, i + k + m)
    ensures ScanDouble(w, j) == ScanDouble(s, i)
  {
  }

  /** `strtod` at a position gives the same answer whatever text lies before it. */
  lemma ScanDoubleShift(a: string, s: string, i: nat, j: nat)
    requires i <= |s| && j == |a| + i
    ensures ScanDouble(a + s, j) == ScanDouble(s, i)
  {
    var k := SignAt(s, i);
    CharShift(a, s, i, j);
    DigitsFromShift(a, s, i + k, j + k);
    var m := DigitsFrom(s, i + k);
    var p := i + k + m;
    var p' := j + k + m;
    ValueOfShift(a, s, i + k, p, j + k, p');
    FractionShift(a, s, p, p');
    ScanDoubleAgree(a + s, j, s, i, k, m);
  }

  /** `strchr` finds the first occurrence: any position holding `c` with none before it is the answer. */
  lemma FindIs(s: string, c: char, from: nat, k: nat)
    requires from <= k < |s| && s[k] == c
    requires forall j :: from <= j < k ==> s[j] != c
    ensures Find(s, c, from) == Some(k)
  {
  }

  /** `strchr` through text that does not hold `c`: the search continues in what follows. */
  lemma FindAfter(a: string, b: string, c: char)
    requires c !in a
    ensures Find(a + b, c, 0) == match Find(b, c, 0) case None => None case Some(k) => Some(|a| + k)
  {
    var w := a + b;
    assert forall j :: 0 <= j < |a| ==> w[j] == a[j];
    match Find(b, c, 0)
    case None =>
      assert forall j :: |a| <= j < |w| ==> w[j] == b[j - |a|];
    case Some(k) =>
      assert w[|a| + k] == b[k];
      FindIs(w, c, 0, |a| + k);
  }

  /** The text `NatToString` writes is one run of digits whose value is the number written. */
  lemma {:induction false} DigitsFromNatToString(n: nat)
    ensures DigitsFrom(NatToString(n), 0) == |NatToString(n)|
    ensures ValueOf(NatToString(n), 0, |NatToString(n)|) == n
  {
    if n >= 10 {
      var d := NatToString(n / 10);
      var c := [DigitChar(n % 10)];
      DigitsFromNatToString(n / 10);
      DigitsFromConcat(d, c, 0);
      assert DigitsFrom(c, 0) == 1;
      ValueOfAppend(d, c, 0, |d|);
    }
  }

  /** `magnitude`, negated when `neg`. */
  function Signed(neg: bool, magnitude: real): real
  {
    if neg then -magnitude else magnitude
  }

  /** `n` digits from `i`, followed by a non-digit or the end, are the run `DigitsFrom` counts. */
  lemma {:induction false} DigitsFromRun(s: string, i: nat, n: nat)
    requires i + n <= |s| && StopsDigitsAt(s, i + n)
    requires forall j :: i <= j < i + n ==> IsDigit(s[j])
    ensures DigitsFrom(s, i) == n
    decreases n
  {
    if n > 0 {
      DigitsFromRun(s, i + 1, n - 1);
    }
  }

  /**
   * `strtod` reads a number written with a point: after the `k` sign
   * characters, `m` digits, a point and `f` digits, with at least one digit
   * in all, up to anything that is not a digit. The value is that of the
   * whole digits plus that of the `f` digits read after the point, negated
   * for a minus sign, and everything up to the last fraction digit is consumed.
   */
  lemma ScanPointText(s: string, k: nat, m: nat, f: nat)
    requires k == SignAt(s, 0) && k + m + 1 + f <= |s| && m + f > 0
    requires forall j :: k <= j < k + m ==> IsDigit(s[j])
    requires s[k + m] == '.'
    requires forall j :: k + m < j <= k + m + f ==> IsDigit(s[j])
    requires StopsDigitsAt(s, k + m + 1 + f)
    ensures ScanDouble(s, 0) == Some(Scanned(
      Signed(MinusAt(s, 0), ValueOf(s, k, k + m) as real + Fraction(ValueOf(s, k + m + 1, k + m + 1 + f), f)),
      k + m + 1 + f))
  {
    DigitsFromRun(s, k, m);
    DigitsFromRun(s, k + m + 1, f);
  }

  /**
   * `strtod` reads a whole number: after the `k` sign characters, `m > 0`
   * digits up to anything that continues neither the digits nor a fraction.
   * It consumes exactly the sign and the digits.
   */
  lemma ScanWholeText(s: string, k: nat, m: nat)
    requires k == SignAt(s, 0) && k + m <= |s| && m > 0
    requires forall j :: k <= j < k + m ==> IsDigit(s[j])
    requires k + m == |s| || (!IsDigit(s[k + m]) && s[k + m] != '.')
    ensures ScanDouble(s, 0) == Some(Scanned(Signed(MinusAt(s, 0), ValueOf(s, k, k + m) as real), k + m))
  {
    DigitsFromRun(s, k, m);
  }

  /** `strtod` reads back the natural number that `NatToString` wrote, up to a non-number. */
  lemma ScanDoubleNatToString(n: nat, rest: string)
    requires |rest| == 0 || (!IsDigit(rest[0]) && rest[0] != '.')
    ensures ScanDouble(NatToString(n) + rest, 0) == Some(Scanned(n as real, |NatToString(n)|))
  {
    var d := NatToString(n);
    var s := d + rest;
    DigitsFromNatToString(n);
    DigitsFromAppend(d, rest, 0);
    ValueOfAppend(d, rest, 0, |d|);
    assert s[0] == d[0];
    assert |d| == |s| || s[|d|] == rest[0];
  }

  /** The voltage `0.81` of the option `vcore::0=0.81` is read as 0.81, all four characters of it. */
  lemma ScanVoltageExample()
    ensures ScanDouble("0.81", 0) == Some(Scanned(0.81, 4))
  {
    var s := "0.81";
    assert ValueOf(s, 0, 1) == 0 && ValueOf(s, 2, 3) == 8 && ValueOf(s, 2, 4) == 81;
    ScanPointText(s, 0, 1, 2);
  }

  /** The clock `900` of the option `coreclk:1=900` is read as 900. */
  lemma ScanClockExample()
    ensures ScanDouble("900", 0) == Some(Scanned(900.0, 3))
  {
    var s := "900";
    assert ValueOf(s, 0, 1) == 9 && ValueOf(s, 0, 2) == 90 && ValueOf(s, 0, 3) == 900;
    ScanWholeText(s, 0, 3);
  }

  /** A negative fraction with no whole digits, `-.5`, is read as -0.5. */
  lemma ScanNegativeExample()
    ensures ScanDouble("-.5x", 0) == Some(Scanned(-0.5, 3))
  {
    ScanPointText("-.5x", 1, 0, 1);
  }

  /** `strtol` reads back exactly the integer that `IntToString` wrote. */
  lemma ScanLongIntToString(x: int, rest: string)
    requires StopsDigits(rest)
    ensures ScanLong(IntToString(x) + rest, 0) == Some(Scanned(x, |IntToString(x)|))
  {
    var s := IntToString(x);
    ScanLongAppend(s, rest, 0);
    var m := if x < 0 then -x else x;
    var d := NatToString(m);
    DigitsFromNatToString(m);
    if x < 0 {
      assert s == "-" + d;
      DigitsFromShift("-", d, 0, 1);
      ValueOfShift("-", d, 0, |d|, 1, 1 + |d|);
    }
  }
}
