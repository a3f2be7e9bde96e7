/**
 Numeric values as the node records carry them, and how Go's `fmt` verbs show them.

 - `Int64` is Go's `int64`; `Wrap64` is two's-complement wrap-around, which is what
   `+=` on an `int64` does when the sum leaves the range.
 - `Float` stands for a `float64`: a real number, an infinity, or not-a-number.
 - `FormatInt` is `%d`, `FormatFixed2` is `%.2f`, `FormatPercent` is `%.2f%%` applied
   to the value scaled by 100.
 */
module Numbers {

  const MinInt64: int := -0x8000_0000_0000_0000
  const MaxInt64: int := 0x7fff_ffff_ffff_ffff
  const Modulus64: int := 0x1_0000_0000_0000_0000

  type Int64 = x: int | -0x8000_0000_0000_0000 <= x <= 0x7fff_ffff_ffff_ffff

  /** Two's-complement reduction of `x` into the `int64` range. */
  function Wrap64(x: int): (r: Int64)
    ensures (r - x) % Modulus64 == 0
    ensures MinInt64 <= x <= MaxInt64 ==> r == x
  {
    (x - MinInt64) % Modulus64 + MinInt64
  }

  /** The wrapped value is the only `int64` congruent to `x`. */
  lemma WrapUnique(x: int, r: Int64)
    requires (r - x) % Modulus64 == 0
    ensures r == Wrap64(x)
  {
    var w := Wrap64(x);
    var a := (r - x) / Modulus64;
    var b := (w - x) / Modulus64;
    assert r - x == Modulus64 * a;
    assert w - x == Modulus64 * b;
    assert r - w == Modulus64 * (a - b);
  }

  /** Wrapping after every addition gives the same result as wrapping once at the end. */
  lemma WrapAdd(a: int, b: int)
    ensures Wrap64(Wrap64(a) + b) == Wrap64(a + b)
  {
    var w := Wrap64(a);
    var v := Wrap64(w + b);
    var k := (w - a) / Modulus64;
    var j := (v - (w + b)) / Modulus64;
    assert w - a == Modulus64 * k;
    assert v - (w + b) == Modulus64 * j;
    assert v - (a + b) == Modulus64 * (j + k);
    assert (v - (a + b)) % Modulus64 == 0;
    WrapUnique(a + b, v);
  }

  /** A `float64` as far as the renderer can tell one apart. */
  datatype Float = NaN | PosInf | NegInf | Num(r: real)

  /** `x * 100` in `float64` terms; the rounding of the product is not modelled. */
  function Scale100(x: Float): (y: Float)
    ensures y.NaN? <==> x.NaN?
    ensures x.Num? ==> y.Num? && y.r == 100.0 * x.r
  {
    match x
    case NaN => NaN
    case PosInf => PosInf
    case NegInf => NegInf
    case Num(r) => Num(r * 100.0)
  }

  predicate IsDigit(c: char) {
    '0' <= c <= '9'
  }

  function DigitChar(d: nat): (c: char)
    requires d < 10
    ensures IsDigit(c)
  {
    ('0' as int + d) as char
  }

  function DigitValue(c: char): nat {
    if IsDigit(c) then c as int - '0' as int else 0
  }

  lemma DigitRoundTrip(d: nat)
    requires d < 10
    ensures DigitValue(DigitChar(d)) == d
  {
  }

  /** Decimal digits of `n`, most significant first, without leading zeros. */
  function Digits(n: nat): (s: string)
    ensures |s| >= 1
    ensures forall i :: 0 <= i < |s| ==> IsDigit(s[i])
    ensures |s| > 1 ==> s[0] != '0'
    decreases n
  {
    if n < 10 then [DigitChar(n)] else Digits(n / 10) + [DigitChar(n % 10)]
  }

  /** The number a string of decimal digits denotes. */
  function ParseDigits(s: string): nat
    decreases |s|
  {
    if |s| == 0 then 0 else ParseDigits(s[..|s| - 1]) * 10 + DigitValue(s[|s| - 1])
  }

  lemma {:induction false} ParseDigitsOfDigits(n: nat)
    ensures ParseDigits(Digits(n)) == n
    decreases n
  {
    if n >= 10 {
      var s := Digits(n);
      assert s[..|s| - 1] == Digits(n / 10);
      ParseDigitsOfDigits(n / 10);
      DigitRoundTrip(n % 10);
    } else {
      DigitRoundTrip(n);
    }
  }

  /** `%d` of an integer. */
  function FormatInt(i: int): string {
    if i < 0 then "-" + Digits(-i) else Digits(i)
  }

  /** `%d` writes decimal digits, after a minus sign for a negative number. */
  lemma FormatIntShape(i: int)
    ensures '\n' !in FormatInt(i)
    ensures forall k :: 0 <= k < |FormatInt(i)| ==> IsDigit(FormatInt(i)[k]) || (k == 0 && FormatInt(i)[k] == '-')
    ensures |FormatInt(i)| >= 1 && (FormatInt(i)[0] == '-' <==> i < 0)
  {
  }

  /** Reads back what `%d` wrote: an optional minus sign, then decimal digits. */
  function ParseInt(s: string): int {
    if |s| > 0 && s[0] == '-' then -(ParseDigits(s[1..]) as int) else ParseDigits(s)
  }

  lemma ParseFormatInt(i: int)
    ensures ParseInt(FormatInt(i)) == i
  {
    if i < 0 {
      ParseDigitsOfDigits(-i);
      assert FormatInt(i)[1..] == Digits(-i);
    } else {
      ParseDigitsOfDigits(i);
    }
  }

  /** Nearest integer to a non-negative `x`, ties to the even neighbour (as Go's `%f` rounds). */
  function RoundHalfEven(x: real): (n: nat)
    requires x >= 0.0
    ensures -0.5 <= n as real - x <= 0.5
  {
    var q := x.Floor;
    var frac := x - q as real;
    if frac > 0.5 || (frac == 0.5 && q % 2 == 1) then q + 1 else q
  }

  /** The magnitude of `r` counted in hundredths, rounded as `%.2f` rounds. */
  function Hundredths(r: real): (q: nat)
    ensures -0.5 <= q as real - (if r < 0.0 then -r * 100.0 else r * 100.0) <= 0.5
  {
    RoundHalfEven(if r < 0.0 then -r * 100.0 else r * 100.0)
  }

  /** The two-character decimal fraction of a count of hundredths. */
  function Cents(q: nat): (s: string)
    ensures |s| == 2 && IsDigit(s[0]) && IsDigit(s[1])
  {
    [DigitChar(q / 10 % 10), DigitChar(q % 10)]
  }

  /** `%.2f` of a `float64`. */
  function FormatFixed2(x: Float): string {
    match x
    case NaN => "NaN"
    case PosInf => "+Inf"
    case NegInf => "-Inf"
    case Num(r) =>
      var q := Hundredths(r);
      (if r < 0.0 then "-" else "") + Digits(q / 100) + "." + Cents(q)
  }

  /** Reads back a fixed-point text with two decimals: optional '-', digits, '.', two digits. */
  function ReadFixed2(s: string): real {
    var negative := |s| > 0 && s[0] == '-';
    var body := if negative then s[1..] else s;
    if |body| < 3 then 0.0
    else
      var whole := ParseDigits(body[..|body| - 3]);
      var cents := ParseDigits(body[|body| - 2..]);
      var magnitude := whole as real + cents as real / 100.0;
      if negative then -magnitude else magnitude
  }

  lemma ParseCents(q: nat)
    ensures ParseDigits(Cents(q)) == q % 100
  {
    var s := Cents(q);
    var tens, units := q / 10 % 10, q % 10;
    DigitRoundTrip(tens);
    DigitRoundTrip(units);
    assert ParseDigits(s[..1]) == tens by {
      assert s[..1][..0] == [];
    }
    assert ParseDigits(s) == tens * 10 + units;
    assert q == 100 * (q / 100) + tens * 10 + units by {
      assert q == 10 * (q / 10) + units;
      assert q / 10 == 10 * (q / 100) + tens;
    }
  }

  /** Reading back a fixed-point text built from `q` hundredths gives `q / 100`, signed. */
  lemma ReadFixed2Hundredths(negative: bool, q: nat)
    ensures var m := q as real / 100.0;
      ReadFixed2((if negative then "-" else "") + Digits(q / 100) + "." + Cents(q)) == if negative then -m else m
  {
    var body := Digits(q / 100) + "." + Cents(q);
    var s := (if negative then "-" else "") + body;
    assert s == (if negative then "-" else "") + Digits(q / 100) + "." + Cents(q);
    assert body[..|body| - 3] == Digits(q / 100);
    assert body[|body| - 2..] == Cents(q);
    ParseDigitsOfDigits(q / 100);
    ParseCents(q);
    assert (q / 100) * 100 + q % 100 == q;
    var magnitude := (q / 100) as real + (q % 100) as real / 100.0;
    assert magnitude == q as real / 100.0;
    if negative {
      assert s[0] == '-' && s[1..] == body;
      assert ReadFixed2(s) == -magnitude;
    } else {
      assert s == body && s[0] != '-';
      assert ReadFixed2(s) == magnitude;
    }
  }

  /** What `%.2f` shows of a real number is that number rounded to the nearest hundredth. */
  lemma FormatFixed2Accuracy(r: real)
    ensures -0.005 <= ReadFixed2(FormatFixed2(Num(r))) - r <= 0.005
  {
    var q := Hundredths(r);
    assert FormatFixed2(Num(r)) == (if r < 0.0 then "-" else "") + Digits(q / 100) + "." + Cents(q);
    ReadFixed2Hundredths(r < 0.0, q);
    HundredthsClose(r, q);
  }

  lemma HundredthsClose(r: real, q: nat)
    requires -0.5 <= q as real - (if r < 0.0 then -r * 100.0 else r * 100.0) <= 0.5
    ensures var m := q as real / 100.0;
      -0.005 <= (if r < 0.0 then -m else m) - r <= 0.005
  {
  }

  /** `%.2f%%` of `x * 100`: how a utilisation fraction is shown as a percentage. */
  function FormatPercent(x: Float): string {
    FormatFixed2(Scale100(x)) + "%"
  }

  /** `%.2f` writes a single line; a number gets digits, a point and two decimals. */
  lemma FormatFixed2Shape(x: Float)
    ensures '\n' !in FormatFixed2(x)
    ensures x.Num? ==> |FormatFixed2(x)| >= 4 && FormatFixed2(x)[|FormatFixed2(x)| - 3] == '.'
  {
    if x.Num? {
      var q := Hundredths(x.r);
      var d := Digits(q / 100);
      assert FormatFixed2(x) == (if x.r < 0.0 then "-" else "") + d + "." + Cents(q);
      assert forall i :: 0 <= i < |d| ==> d[i] != '\n';
    }
  }

  /** A percentage is one line ending in '%', and reads "NaN%" exactly for not-a-number. */
  lemma FormatPercentShape(x: Float)
    ensures '\n' !in FormatPercent(x)
    ensures |FormatPercent(x)| >= 1 && FormatPercent(x)[|FormatPercent(x)| - 1] == '%'
    ensures FormatPercent(x) == "NaN%" <==> x.NaN?
  {
    FormatFixed2Shape(Scale100(x));
    if !x.NaN? {
      assert FormatPercent(x)[..|FormatPercent(x)| - 1] == FormatFixed2(Scale100(x));
    }
  }
}
