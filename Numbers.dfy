/** Decimal numerals: the value of a number input field, its text as it is
    interpolated into a command, and the JavaScript `Number(...)` coercion
    of a default token, restricted to plain decimal notation. */
module Numbers {
  import opened Wrappers

  /** The decimal `mantissa / 10^scale`, written with exactly `scale` digits after the point. */
  datatype Decimal = Decimal(mantissa: int, scale: nat)

  function Pow10(n: nat): (p: nat)
    ensures p >= 1
  {
    if n == 0 then 1 else 10 * Pow10(n - 1)
  }

  /** The number a decimal denotes. */
  function RealValue(d: Decimal): real
  {
    d.mantissa as real / Pow10(d.scale) as real
  }

  lemma ValueSign(d: Decimal)
    ensures RealValue(d) < 0.0 <==> d.mantissa < 0
  {
    QuotientBounds(d.mantissa as real, Pow10(d.scale) as real);
  }

  lemma ValueAtMostOne(d: Decimal)
    ensures RealValue(d) <= 1.0 <==> d.mantissa <= Pow10(d.scale)
  {
    QuotientBounds(d.mantissa as real, Pow10(d.scale) as real);
  }

  lemma QuotientBounds(x: real, p: real)
    requires p > 0.0
    ensures x / p < 0.0 <==> x < 0.0
    ensures x / p <= 1.0 <==> x <= p
  {
    assert x / p * p == x;
  }

  predicate IsDigit(c: char)
  {
    '0' <= c <= '9'
  }

  predicate AllDigits(s: string)
  {
    forall i :: 0 <= i < |s| ==> IsDigit(s[i])
  }

  function DigitChar(n: nat): (c: char)
    requires n < 10
    ensures IsDigit(c)
  {
    ('0' as int + n) as char
  }

  function DigitValue(c: char): (n: nat)
    requires IsDigit(c)
    ensures n < 10
  {
    c as int - '0' as int
  }

  /** The number a string of digits denotes (0 for the empty string). */
  function DigitsValue(s: string): nat
    requires AllDigits(s)
  {
    if s == [] then 0 else DigitsValue(s[..|s| - 1]) * 10 + DigitValue(s[|s| - 1])
  }

  /** `n` in decimal with no leading zero. */
  function NatText(n: nat): (s: string)
    ensures |s| >= 1 && AllDigits(s)
  {
    if n < 10 then [DigitChar(n)] else NatText(n / 10) + [DigitChar(n % 10)]
  }

  /** The last `width` decimal digits of `n`, padded with leading zeros. */
  function PaddedText(n: nat, width: nat): (s: string)
    ensures |s| == width && AllDigits(s)
  {
    if width == 0 then [] else PaddedText(n / 10, width - 1) + [DigitChar(n % 10)]
  }

  lemma {:induction false} NatTextValue(n: nat)
    ensures DigitsValue(NatText(n)) == n
  {
    if n >= 10 {
      var s := NatText(n);
      assert s[..|s| - 1] == NatText(n / 10);
      NatTextValue(n / 10);
    }
  }

  lemma {:induction false} PaddedTextValue(n: nat, width: nat)
    requires n < Pow10(width)
    ensures DigitsValue(PaddedText(n, width)) == n
  {
    if width > 0 {
      var s := PaddedText(n, width);
      assert s[..|s| - 1] == PaddedText(n / 10, width - 1);
      PaddedTextValue(n / 10, width - 1);
    }
  }

  lemma {:induction false} DigitsValueAppend(a: string, b: string)
    requires AllDigits(a) && AllDigits(b)
    ensures AllDigits(a + b)
    ensures DigitsValue(a + b) == DigitsValue(a) * Pow10(|b|) + DigitsValue(b)
  {
    assert AllDigits(a + b) by {
      forall i | 0 <= i < |a + b| ensures IsDigit((a + b)[i]) {
        if i >= |a| { assert (a + b)[i] == b[i - |a|]; }
      }
    }
    if b == [] {
      assert a + b == a;
    } else {
      var b' := b[..|b| - 1];
      assert (a + b)[..|a + b| - 1] == a + b';
      assert (a + b)[|a + b| - 1] == b[|b| - 1];
      DigitsValueAppend(a, b');
      Regroup(DigitsValue(a), Pow10(|b'|), DigitsValue(b'), DigitValue(b[|b| - 1]));
    }
  }

  /** Solver aid: an arithmetic regrouping; no source counterpart. */
  lemma Regroup(x: int, p: int, y: int, z: int)
    ensures (x * p + y) * 10 + z == x * (p * 10) + (y * 10 + z)
  {
  }

  /** The characters a numeral is written with. */
  predicate IsNumeralChar(c: char)
  {
    IsDigit(c) || c == '-' || c == '.'
  }

  predicate IsNumeral(s: string)
  {
    forall i :: 0 <= i < |s| ==> IsNumeralChar(s[i])
  }

  lemma NumeralAppend(a: string, b: string)
    requires IsNumeral(a) && IsNumeral(b)
    ensures IsNumeral(a + b)
  {
    forall i | 0 <= i < |a + b| ensures IsNumeralChar((a + b)[i]) {
      if i >= |a| { assert (a + b)[i] == b[i - |a|]; }
    }
  }

  /** Solver aid: a digit string is a numeral. */
  lemma DigitsNumeral(s: string)
    requires AllDigits(s)
    ensures IsNumeral(s)
  {
  }

  /** The text of a non-negative decimal: the integer part, and when
      `scale > 0` a point and exactly `scale` fraction digits. */
  function UnsignedText(m: nat, scale: nat): string
  {
    if scale == 0 then NatText(m)
    else
      var p := Pow10(scale);
      DivNat(m, p);
      NatText(m / p) + "." + PaddedText(m % p, scale)
  }

  /** Solver aid: dividing a natural number by a positive one leaves natural numbers. */
  lemma DivNat(m: nat, p: nat)
    requires p > 0
    ensures m / p >= 0 && 0 <= m % p < p
  {
  }

  /** The text of a decimal, as typed into a number input: an optional minus
      sign followed by the text of its magnitude. */
  function DecimalText(d: Decimal): string
  {
    if d.mantissa < 0 then "-" + UnsignedText(-d.mantissa, d.scale)
    else UnsignedText(d.mantissa, d.scale)
  }

  /** The text of a magnitude starts with a digit and holds only digits and a point. */
  lemma UnsignedTextShape(m: nat, scale: nat)
    ensures var s := UnsignedText(m, scale); |s| >= 1 && IsDigit(s[0]) && IsNumeral(s)
  {
    if scale == 0 {
      DigitsNumeral(NatText(m));
    } else {
      var p := Pow10(scale);
      DivNat(m, p);
      var whole, fraction := NatText(m / p), PaddedText(m % p, scale);
      DigitsNumeral(whole);
      DigitsNumeral(fraction);
      NumeralAppend(whole, ".");
      NumeralAppend(whole + ".", fraction);
      assert (whole + "." + fraction)[0] == whole[0];
    }
  }

  /** The text of a decimal is a non-empty numeral. */
  lemma DecimalTextShape(d: Decimal)
    ensures |DecimalText(d)| >= 1 && IsNumeral(DecimalText(d))
  {
    if d.mantissa < 0 {
      UnsignedTextShape(-d.mantissa, d.scale);
      NumeralAppend("-", UnsignedText(-d.mantissa, d.scale));
    } else {
      UnsignedTextShape(d.mantissa, d.scale);
    }
  }

  /** A number never brings a space or a pipe into a command line. */
  lemma DecimalTextFree(d: Decimal)
    ensures ' ' !in DecimalText(d) && '|' !in DecimalText(d)
  {
    DecimalTextShape(d);
    var s := DecimalText(d);
    forall i | 0 <= i < |s| ensures s[i] != ' ' && s[i] != '|' {
      assert IsNumeralChar(s[i]);
    }
  }

  /** Index of the first '.', or |s| when there is none. */
  function PointIndex(s: string): (i: nat)
    ensures i <= |s|
    ensures forall j :: 0 <= j < i ==> s[j] != '.'
    ensures i < |s| ==> s[i] == '.'
  {
    if s == [] then 0 else if s[0] == '.' then 0 else 1 + PointIndex(s[1..])
  }

  /** An unsigned decimal numeral: digits, optionally a point and more
      digits, with at least one digit overall. */
  function ParseUnsigned(s: string): Option<Decimal>
  {
    var i := PointIndex(s);
    if i == |s| then
      if s != [] && AllDigits(s) then Some(Decimal(DigitsValue(s), 0)) else None
    else
      var whole, fraction := s[..i], s[i + 1..];
      if (whole != [] || fraction != []) && AllDigits(whole) && AllDigits(fraction)
      then Some(Decimal(DigitsValue(whole) * Pow10(|fraction|) + DigitsValue(fraction), |fraction|))
      else None
  }

  /** `Number(s)` for plain decimal notation: the empty string counts as 0,
      a leading sign is allowed; anything else is not a number (`None`). */
  function ParseDecimal(s: string): Option<Decimal>
  {
    if s == [] then Some(Decimal(0, 0))
    else if s[0] == '-' then
      match ParseUnsigned(s[1..])
      case Some(d) => Some(Decimal(-d.mantissa, d.scale))
      case None => None
    else if s[0] == '+' then ParseUnsigned(s[1..])
    else ParseUnsigned(s)
  }

  lemma DivMod(m: nat, p: nat)
    requires p > 0
    ensures (m / p) * p + m % p == m
  {
  }

  lemma ParseUnsignedText(m: nat, scale: nat)
    ensures ParseUnsigned(UnsignedText(m, scale)) == Some(Decimal(m, scale))
  {
    var p := Pow10(scale);
    var s := UnsignedText(m, scale);
    if scale == 0 {
      NatTextValue(m);
      assert PointIndex(s) == |s| by {
        assert forall j :: 0 <= j < |s| ==> IsDigit(s[j]);
      }
    } else {
      DivNat(m, p);
      var whole, fraction := NatText(m / p), PaddedText(m % p, scale);
      assert s == whole + "." + fraction;
      assert PointIndex(s) == |whole| by {
        assert forall j :: 0 <= j < |whole| ==> s[j] == whole[j] && IsDigit(whole[j]);
        assert s[|whole|] == '.';
      }
      assert s[..|whole|] == whole;
      assert s[|whole| + 1..] == fraction;
      var q, r := m / p, m % p;
      NatTextValue(q);
      PaddedTextValue(r, scale);
      assert DigitsValue(whole) == q && DigitsValue(fraction) == r;
      DivMod(m, p);
    }
  }

  lemma ParseNegativeText(m: nat, scale: nat)
    requires m > 0
    ensures ParseDecimal("-" + UnsignedText(m, scale)) == Some(Decimal(-(m as int), scale))
  {
    var u := UnsignedText(m, scale);
    var s := "-" + u;
    assert s[0] == '-' && s[1..] == u;
    ParseUnsignedText(m, scale);
  }

  lemma ParseNonNegativeText(m: nat, scale: nat)
    ensures ParseDecimal(UnsignedText(m, scale)) == Some(Decimal(m, scale))
  {
    UnsignedTextShape(m, scale);
    ParseUnsignedText(m, scale);
  }

  /** Parsing the text of a decimal gives that decimal back. */
  lemma ParseDecimalText(d: Decimal)
    ensures ParseDecimal(DecimalText(d)) == Some(d)
  {
    if d.mantissa < 0 {
      assert DecimalText(d) == "-" + UnsignedText(-d.mantissa, d.scale);
      ParseNegativeText(-d.mantissa, d.scale);
    } else {
      assert DecimalText(d) == UnsignedText(d.mantissa, d.scale);
      ParseNonNegativeText(d.mantissa, d.scale);
    }
  }

  /** The shortest form of a decimal: trailing fraction zeros removed, as
      JavaScript does when it turns a number back into text. */
  function Normalize(d: Decimal): (r: Decimal)
    ensures RealValue(r) == RealValue(d)
    ensures r.scale <= d.scale
    ensures r.scale == 0 || r.mantissa % 10 != 0
    decreases d.scale
  {
    if d.scale > 0 && d.mantissa % 10 == 0 then
      var shorter := Decimal(d.mantissa / 10, d.scale - 1);
      assert RealValue(shorter) == RealValue(d) by {
        var k := (d.mantissa / 10) as real;
        var q := Pow10(d.scale - 1) as real;
        assert d.mantissa as real == 10.0 * k;
        assert Pow10(d.scale) as real == 10.0 * q;
        assert (10.0 * k) / (10.0 * q) == k / q;
      }
      Normalize(shorter)
    else d
  }
}
