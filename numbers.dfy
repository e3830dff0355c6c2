/** Python's conversions between numbers and text, as far as the pipeline
    uses them: `str()` of an int, `repr()` of a float, `int(text)`,
    `float(text)` and the `:.4f` format. Floats are modelled as exact reals. */
module Numbers {
  import opened Wrappers
  import opened Strings

  function DigitChar(d: nat): char
    requires d < 10
  {
    ('0' as int + d) as char
  }

  predicate IsDigit(ch: char)
  {
    '0' <= ch <= '9'
  }

  predicate AllDigits(s: string)
  {
    forall i :: 0 <= i < |s| ==> IsDigit(s[i])
  }

  /** The value of a string of decimal digits, most significant first. */
  function DigitsValue(s: string): nat
    requires AllDigits(s)
  {
    if |s| == 0 then 0
    else DigitsValue(s[..|s| - 1]) * 10 + (s[|s| - 1] as int - '0' as int)
  }

  /** Decimal digits of a natural number, without leading zeros. */
  function NatText(n: nat): (r: string)
    ensures |r| > 0 && AllDigits(r)
  {
    if n < 10 then [DigitChar(n)] else NatText(n / 10) + [DigitChar(n % 10)]
  }

  /** `str(n)` for an int. */
  function IntText(n: int): string
  {
    if n < 0 then "-" + NatText(-n) else NatText(n)
  }

  function Pow10(k: nat): (r: nat)
    ensures r >= 1
  {
    if k == 0 then 1 else 10 * Pow10(k - 1)
  }

  /** A string of decimal digits read back gives the number it was written from. */
  lemma {:induction false} NatTextValue(n: nat)
    ensures DigitsValue(NatText(n)) == n
  {
    if n >= 10 {
      var s := NatText(n);
      assert s[..|s| - 1] == NatText(n / 10);
      NatTextValue(n / 10);
    }
  }

  /** `int(text)`: surrounding white space, an optional sign, then one or more
      ASCII digits; anything else is a ValueError, here None. */
  function ParseInt(s: string): Option<int>
  {
    var t := Strip(s);
    if |t| > 1 && (t[0] == '-' || t[0] == '+') && AllDigits(t[1..]) then
      Some(if t[0] == '-' then -(DigitsValue(t[1..]) as int) else DigitsValue(t[1..]))
    else if |t| > 0 && AllDigits(t) then Some(DigitsValue(t))
    else None
  }

  /** Text that starts and ends with a character other than white space is
      its own `strip()`. */
  lemma StripFixed(t: string)
    requires t != [] ==> !IsSpace(t[0]) && !IsSpace(t[|t| - 1])
    ensures Strip(t) == t
  {
  }

  /** `int(str(n)) == n`. */
  lemma ParseIntText(n: int)
    ensures ParseInt(IntText(n)) == Some(n)
  {
    var t := IntText(n);
    StripFixed(t);
    if n < 0 {
      assert t[1..] == NatText(-n);
      NatTextValue(-n);
    } else {
      NatTextValue(n);
    }
  }

  /** The digits before and after a decimal point, at least one in all. */
  function UnsignedDecimal(b: string): Option<real>
  {
    if |b| > 0 && AllDigits(b) then Some(DigitsValue(b) as real)
    else if '.' in b then
      var k := FirstDot(b);
      var whole, frac := b[..k], b[k + 1..];
      if |whole| + |frac| > 0 && AllDigits(whole) && AllDigits(frac) then
        Some(DigitsValue(whole) as real + Shift(DigitsValue(frac) as real, |frac|))
      else None
    else None
  }

  /** `v` with the decimal point moved `k` places to the left. */
  function Shift(v: real, k: nat): real
  {
    if k == 0 then v else Shift(v, k - 1) / 10.0
  }

  lemma Shift4(v: real)
    ensures Shift(v, 4) == v / 10000.0
  {
    assert Shift(v, 1) == v / 10.0;
    assert Shift(v, 2) == v / 100.0;
    assert Shift(v, 3) == v / 1000.0;
  }

  function FirstDot(b: string): (k: nat)
    requires '.' in b
    ensures k < |b| && b[k] == '.' && '.' !in b[..k]
  {
    if b[0] == '.' then 0
    else
      assert b == [b[0]] + b[1..];
      var k := 1 + FirstDot(b[1..]);
      assert b[..k] == [b[0]] + b[1..][..k - 1];
      k
  }

  /** `float(text)`: surrounding white space, an optional sign, then decimal
      digits with at most one point. */
  function ParseReal(s: string): Option<real>
  {
    var t := Strip(s);
    var signed := |t| > 0 && (t[0] == '-' || t[0] == '+');
    var body := if signed then t[1..] else t;
    match UnsignedDecimal(body)
    case None => None
    case Some(v) => Some(Negated(signed && t[0] == '-', v))
  }

  /** `-v` when `neg`, otherwise `v`. */
  function Negated(neg: bool, v: real): real
  {
    if neg then -v else v
  }

  /** `int(x)` for a float: truncation toward zero. */
  function Truncate(r: real): (n: int)
    ensures r >= 0.0 ==> 0.0 <= n as real <= r < n as real + 1.0
    ensures r < 0.0 ==> n as real - 1.0 < r <= n as real <= 0.0
  {
    if r >= 0.0 then r.Floor else -((-r).Floor)
  }

  /** Up to `n` decimal digits of a fraction in [0, 1), stopping once the
      expansion ends. */
  function FractionDigits(f: real, n: nat): (r: string)
    requires 0.0 <= f < 1.0
    ensures AllDigits(r)
    decreases n
  {
    if f == 0.0 || n == 0 then ""
    else
      var d := (f * 10.0).Floor;
      [DigitChar(d)] + FractionDigits(f * 10.0 - d as real, n - 1)
  }

  /** `repr()` of a float: the whole part, a point, and the fraction written
      out (a lone 0 when there is none). */
  function FloatRepr(r: real): string
  {
    var a := if r < 0.0 then -r else r;
    var whole := a.Floor;
    var frac := FractionDigits(a - whole as real, 17);
    (if r < 0.0 then "-" else "") + NatText(whole) + "." + (if frac == "" then "0" else frac)
  }

  /** Rounding to the nearest integer, ties to the even neighbour. */
  function RoundHalfEven(x: real): (n: int)
    ensures -0.5 <= n as real - x <= 0.5
  {
    var f := x.Floor;
    var d := x - f as real;
    if d < 0.5 then f
    else if d > 0.5 then f + 1
    else if f % 2 == 0 then f else f + 1
  }

  /** The last `width` decimal digits of `n`, with leading zeros. */
  function Padded(n: nat, width: nat): (r: string)
    ensures |r| == width && AllDigits(r)
  {
    if width == 0 then "" else Padded(n / 10, width - 1) + [DigitChar(n % 10)]
  }

  lemma {:induction false} PaddedValue(n: nat, width: nat)
    requires n < Pow10(width)
    ensures DigitsValue(Padded(n, width)) == n
  {
    if width > 0 {
      var r := Padded(n, width);
      assert r[..width - 1] == Padded(n / 10, width - 1);
      PaddedValue(n / 10, width - 1);
    }
  }

  /** `|x|` in units of 1/10000, rounded as `:.4f` rounds. */
  function Scaled4(x: real): nat
  {
    RoundHalfEven((if x < 0.0 then -x else x) * 10000.0)
  }

  /** The value `x` shows after `:.4f`: the nearest multiple of 1/10000. */
  function Rounded4(x: real): real
  {
    FixedValue(x < 0.0, Scaled4(x))
  }

  /** The number an optional minus sign and `n` ten-thousandths stand for. */
  function FixedValue(neg: bool, n: nat): real
  {
    Negated(neg, n as real / 10000.0)
  }

  /** `body` with a leading minus sign when `neg`. */
  function Signed(neg: bool, body: string): string
  {
    (if neg then "-" else "") + body
  }

  /** An optional minus sign, then `n` / 10000 with exactly four decimals. */
  function FixedText(neg: bool, n: nat): string
  {
    Signed(neg, NatText(n / 10000) + "." + Padded(n % 10000, 4))
  }

  /** `f"{x:.4f}"`. */
  function Fixed4(x: real): string
  {
    FixedText(x < 0.0, Scaled4(x))
  }

  /** Text with exactly one point, digits on both sides and at least one
      digit before it reads as the whole part plus the scaled fraction. */
  lemma PointAt(b: string, k: nat)
    requires k < |b| && b[k] == '.' && '.' !in b[..k]
    requires 0 < k && AllDigits(b[..k]) && AllDigits(b[k + 1..])
    ensures UnsignedDecimal(b) == Some(DigitsValue(b[..k]) as real + Shift(DigitsValue(b[k + 1..]) as real, |b[k + 1..]|))
  {
    assert !AllDigits(b) by { assert !IsDigit(b[k]); }
    assert '.' in b by { assert b[k] in b; }
    assert forall j :: 0 <= j < k ==> b[j] != '.' by {
      forall j | 0 <= j < k ensures b[j] != '.' { assert b[j] == b[..k][j]; }
    }
    FirstDotAt(b, k);
  }

  /** The first point is the one with no point before it. */
  lemma {:induction false} FirstDotAt(b: string, k: nat)
    requires k < |b| && b[k] == '.'
    requires forall j :: 0 <= j < k ==> b[j] != '.'
    ensures FirstDot(b) == k
    decreases k
  {
    if k > 0 {
      FirstDotAt(b[1..], k - 1);
    }
  }

  /** Whole part, point and four decimals read back as a decimal number. */
  lemma DecimalText(q: nat, m: nat)
    requires m < 10000
    ensures UnsignedDecimal(NatText(q) + "." + Padded(m, 4)) == Some(q as real + m as real / 10000.0)
  {
    var w, f := NatText(q), Padded(m, 4);
    var body := w + "." + f;
    var k := |w|;
    assert body[..k] == w;
    assert body[k + 1..] == f;
    assert '.' !in w by {
      forall i | 0 <= i < |w| ensures w[i] != '.' { assert IsDigit(w[i]); }
    }
    PointAt(body, k);
    NatTextValue(q);
    assert Pow10(4) == 10000;
    PaddedValue(m, 4);
    Shift4(m as real);
  }

  lemma DigitNotSpace(ch: char)
    requires IsDigit(ch) || ch == '-'
    ensures !IsSpace(ch)
  {
  }

  /** An optional minus sign before a number that starts and ends with a
      digit: `strip()` keeps it whole, and the sign is read off as written. */
  lemma SignOf(neg: bool, t: string, body: string)
    requires t == Signed(neg, body)
    requires |body| > 0 && IsDigit(body[0]) && IsDigit(body[|body| - 1])
    ensures Strip(t) == t
    ensures var signed := |t| > 0 && (t[0] == '-' || t[0] == '+');
      && signed == neg && (signed ==> t[0] == '-') && (if signed then t[1..] else t) == body
  {
    assert t[|t| - 1] == body[|body| - 1];
    DigitNotSpace(t[0]);
    DigitNotSpace(t[|t| - 1]);
    StripFixed(t);
    if neg {
      assert t[1..] == body;
    } else {
      assert t == body;
    }
  }

  /** A signed decimal worth `n` / 10000 read back by `float()`. */
  lemma ParseSigned(neg: bool, t: string, body: string, n: nat)
    requires t == Signed(neg, body)
    requires |body| > 0 && IsDigit(body[0]) && IsDigit(body[|body| - 1])
    requires UnsignedDecimal(body) == Some(n as real / 10000.0)
    ensures ParseReal(t) == Some(FixedValue(neg, n))
  {
    SignOf(neg, t, body);
  }

  lemma SplitTenThousandths(n: nat)
    ensures (n / 10000) as real + (n % 10000) as real / 10000.0 == n as real / 10000.0
  {
    assert n == (n / 10000) * 10000 + n % 10000;
  }

  lemma FixedTextShape(neg: bool, n: nat)
    ensures var t := FixedText(neg, n);
      && |t| >= 6 && t[|t| - 5] == '.' && AllDigits(t[|t| - 4..])
  {
    var t := FixedText(neg, n);
    assert t[|t| - 4..] == Padded(n % 10000, 4);
  }

  lemma FixedTextUnfold(neg: bool, n: nat)
    ensures FixedText(neg, n) == (if neg then "-" else "") + (NatText(n / 10000) + "." + Padded(n % 10000, 4))
  {
  }

  /** The unsigned part of the `:.4f` text reads back as `n` / 10000. */
  lemma DecimalValue(neg: bool, n: nat, body: string)
    requires body == NatText(n / 10000) + "." + Padded(n % 10000, 4)
    ensures FixedText(neg, n) == Signed(neg, body)
    ensures |body| > 0 && IsDigit(body[0]) && IsDigit(body[|body| - 1])
    ensures UnsignedDecimal(body) == Some(n as real / 10000.0)
  {
    DecimalText(n / 10000, n % 10000);
    SplitTenThousandths(n);
    assert body[|body| - 1] == Padded(n % 10000, 4)[3];
  }

  lemma FixedTextValue(neg: bool, n: nat)
    ensures ParseReal(FixedText(neg, n)) == Some(FixedValue(neg, n))
  {
    var body := NatText(n / 10000) + "." + Padded(n % 10000, 4);
    DecimalValue(neg, n, body);
    ParseSigned(neg, FixedText(neg, n), body, n);
  }

  /** Rounding to four decimals moves a value by at most half a unit of the
      last place. */
  lemma Rounded4Close(x: real)
    ensures -0.00005 <= Rounded4(x) - x <= 0.00005
  {
    if x < 0.0 {
      assert -0.5 <= Scaled4(x) as real - -x * 10000.0 <= 0.5;
    } else {
      assert -0.5 <= Scaled4(x) as real - x * 10000.0 <= 0.5;
    }
  }

  /** `:.4f` writes the sign, the whole part, a point and exactly four
      decimals, and reading the text back gives `x` rounded to four decimals,
      which lies within half a unit of the last place of `x`. */
  lemma Fixed4Spec(x: real)
    ensures var t := Fixed4(x);
      && |t| >= 6 && t[|t| - 5] == '.' && AllDigits(t[|t| - 4..])
      && ParseReal(t) == Some(Rounded4(x))
    ensures -0.00005 <= Rounded4(x) - x <= 0.00005
  {
    FixedTextShape(x < 0.0, Scaled4(x));
    FixedTextValue(x < 0.0, Scaled4(x));
    Rounded4Close(x);
  }
}
