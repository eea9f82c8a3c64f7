/** Python's decimal `str(int)`, `int(s)`, `str(float)` and `float(s)` on the
    forms the CSV file uses: an optional sign, ASCII digits and, for line
    spacings, one decimal point. */
module Numerals {
  import opened Text
  import opened Region

  predicate IsDigit(c: char) {
    '0' <= c <= '9'
  }

  predicate AllDigits(s: string) {
    forall k :: 0 <= k < |s| ==> IsDigit(s[k])
  }

  function DigitChar(d: nat): (c: char)
    requires d < 10
    ensures IsDigit(c) && (c as int) - ('0' as int) == d
  {
    (('0' as int) + d) as char
  }

  /** The value of a string of ASCII digits, most significant first. */
  function DigitsValue(s: string): (v: nat)
    requires AllDigits(s)
  {
    if s == [] then 0 else DigitsValue(s[..|s| - 1]) * 10 + ((s[|s| - 1] as int) - ('0' as int))
  }

  /** `str(n)` for a natural number: no leading zero except for 0 itself. */
  function NatToString(n: nat): (s: string)
    ensures s != [] && AllDigits(s)
    ensures |s| > 1 ==> s[0] != '0'
  {
    if n < 10 then [DigitChar(n)] else NatToString(n / 10) + [DigitChar(n % 10)]
  }

  /** `str(i)`. */
  function IntToString(i: int): (s: string)
    ensures s != [] && !IsSpace(s[0]) && !IsSpace(s[|s| - 1])
  {
    if i < 0 then "-" + NatToString(-i) else NatToString(i)
  }

  /** Python's `int(s)` on the decimal forms: surrounding whitespace, an
      optional sign and at least one ASCII digit; anything else raises
      `ValueError`, here `None`. */
  function ParseInt(s: string): (r: Option<int>)
    ensures r.Some? ==> !IsBlank(s)
  {
    var t := Strip(s);
    if t == [] then None
    else
      var negative := t[0] == '-';
      var digits := if t[0] == '-' || t[0] == '+' then t[1..] else t;
      if digits == [] || !AllDigits(digits) then None
      else
        var v: int := DigitsValue(digits);
        Some(if negative then -v else v)
  }

  /** `n` zeros. */
  function Zeros(n: nat): (z: string)
    ensures |z| == n && AllDigits(z)
  {
    if n == 0 then [] else Zeros(n - 1) + ['0']
  }

  /** The digits of `n` padded on the left with zeros to `width` characters. */
  function Padded(n: nat, width: nat): (s: string)
    ensures AllDigits(s) && |s| >= width
  {
    var d := NatToString(n);
    if |d| >= width then d else Zeros(width - |d|) + d
  }

  /** The real number a decimal denotes. */
  function Value(d: Decimal): real
  {
    d.scaled as real / Pow10(d.places) as real
  }

  /** The shortest form of a decimal: trailing fractional zeros dropped.
      `str(float)` prints the shortest digits that read back as the same
      number, so "1.20" is printed "1.2". */
  function Normal(d: Decimal): (n: Decimal)
    ensures n.places <= d.places
    ensures n.places == 0 || n.scaled % 10 != 0
    decreases d.places
  {
    if d.places > 0 && d.scaled % 10 == 0 then Normal(Decimal(d.scaled / 10, d.places - 1)) else d
  }

  /** `str(x)` of a line spacing: the shortest digits of `x`, with at least
      one fractional digit ("1.2", "1.0", "-0.5"). */
  function DecimalToString(d: Decimal): (s: string)
    ensures s != [] && !IsSpace(s[0]) && !IsSpace(s[|s| - 1])
  {
    Render(Normal(d))
  }

  /** The sign, the integer part, a point and the stored fractional digits,
      at least one of them. */
  function Render(d: Decimal): (s: string)
    ensures s != [] && !IsSpace(s[0]) && !IsSpace(s[|s| - 1])
  {
    var a: nat := if d.scaled < 0 then -d.scaled else d.scaled;
    var whole := NatToString(High(a, d.places));
    var sign := if d.scaled < 0 then "-" else "";
    var s := sign + whole + "." + Fraction(a, d.places);
    assert !IsSpace(s[0]) && IsDigit(s[|s| - 1]) by {
      assert s[0] == if d.scaled < 0 then '-' else whole[0];
    }
    s
  }

  /** The fractional digits of `a / 10^places`, at least one. */
  function Fraction(a: nat, places: nat): (f: string)
    ensures f != [] && AllDigits(f)
  {
    if places == 0 then "0" else Padded(Low(a, places), places)
  }

  /** `a // 10^k`: the digits of `a` above the last `k`. */
  function High(a: nat, k: nat): nat
  {
    if k == 0 then a else High(a / 10, k - 1)
  }

  /** `a % 10^k`: the value of the last `k` digits of `a`. */
  function Low(a: nat, k: nat): (r: nat)
    ensures r < Pow10(k)
  {
    if k == 0 then 0 else Low(a / 10, k - 1) * 10 + a % 10
  }

  /** Python's `float(s)` on the decimal forms: surrounding whitespace, an
      optional sign, digits with at most one point and at least one digit
      (`"1.2"`, `"3"`, `".5"`, `"2."`). */
  function ParseDecimal(s: string): (r: Option<Decimal>)
    ensures r.Some? ==> !IsBlank(s)
  {
    var t := Strip(s);
    if t == [] then None
    else ParseBody(t[0] == '-', if t[0] == '-' || t[0] == '+' then t[1..] else t)
  }

  /** A magnitude with its sign. */
  function Signed(negative: bool, v: int): int
  {
    if negative then -v else v
  }

  /** The unsigned part of a decimal literal. */
  function ParseBody(negative: bool, u: string): (r: Option<Decimal>)
  {
    var k := FindFrom(u, '.', 0);
    var whole := u[..k];
    var fraction := if k < |u| then u[k + 1..] else [];
    if !AllDigits(whole) || !AllDigits(fraction) || |whole| + |fraction| == 0 then None
    else
      var v: int := DigitsValue(whole + fraction);
      Some(Decimal(Signed(negative, v), |fraction|))
  }

  /** The decimal that parsing the printed form gives back: the shortest
      digits, with one fractional zero added to a whole number. */
  function Printed(d: Decimal): Decimal
  {
    var n := Normal(d);
    if n.places == 0 then Decimal(n.scaled * 10, 1) else n
  }

  /** A spacing read as "1.20" is written back as "1.2"; a whole number
      keeps one fractional zero. */
  lemma ShortestExamples()
    ensures DecimalToString(Decimal(120, 2)) == "1.2"
    ensures DecimalToString(Decimal(2, 0)) == "2.0"
  {
    assert Normal(Decimal(120, 2)) == Decimal(12, 1);
    assert NatToString(1) == "1" && NatToString(2) == "2" && NatToString(0) == "0";
    assert High(12, 1) == 1 && Low(12, 1) == 2 && Padded(2, 1) == "2";
    assert High(2, 0) == 2;
  }

  /** Dropping one trailing fractional zero keeps the value. */
  lemma DropZeroKeepsValue(d: Decimal)
    requires d.places > 0 && d.scaled % 10 == 0
    ensures Value(Decimal(d.scaled / 10, d.places - 1)) == Value(d)
  {
    var q := d.scaled / 10;
    var p := Pow10(d.places - 1);
    assert d.scaled == q * 10;
    assert Pow10(d.places) == 10 * p;
    assert (q * 10) as real / (10 * p) as real == q as real / p as real;
  }

  /** The shortest form denotes the same number. */
  lemma {:induction false} NormalKeepsValue(d: Decimal)
    ensures Value(Normal(d)) == Value(d)
    decreases d.places
  {
    if d.places > 0 && d.scaled % 10 == 0 {
      DropZeroKeepsValue(d);
      NormalKeepsValue(Decimal(d.scaled / 10, d.places - 1));
    }
  }

  /** The printed form denotes the same number. */
  lemma PrintedKeepsValue(d: Decimal)
    ensures Value(Printed(d)) == Value(d)
  {
    NormalKeepsValue(d);
    assert Pow10(1) == 10;
  }

  /** Printing is stable: writing back a spacing that was read from a
      written file gives the same text, "1.20" and "1.2" alike print "1.2". */
  lemma PrintStable(d: Decimal)
    ensures DecimalToString(Printed(d)) == DecimalToString(d)
  {
    var n := Normal(d);
    if n.places == 0 {
      assert (n.scaled * 10) % 10 == 0 && (n.scaled * 10) / 10 == n.scaled;
      assert Normal(Decimal(n.scaled * 10, 1)) == Normal(Decimal(n.scaled, 0));
    }
  }

  /** Two decimals with the same digits up to trailing zeros print alike. */
  lemma {:induction false} TrailingZeroPrintsAlike(d: Decimal)
    ensures DecimalToString(Decimal(d.scaled * 10, d.places + 1)) == DecimalToString(d)
  {
    assert (d.scaled * 10) % 10 == 0 && (d.scaled * 10) / 10 == d.scaled;
  }

  // Lemmas

  lemma AllDigitsAppend(a: string, b: string)
    requires AllDigits(a) && AllDigits(b)
    ensures AllDigits(a + b)
  {
    forall k | 0 <= k < |a + b| ensures IsDigit((a + b)[k]) {
      if k < |a| { assert (a + b)[k] == a[k]; } else { assert (a + b)[k] == b[k - |a|]; }
    }
  }

  lemma ShiftDigit(x: int, p: int, y: int, c: int)
    ensures (x * p + y) * 10 + c == x * (p * 10) + (y * 10 + c)
  {
  }

  /** Reading `a + b` reads `a`, shifted by the length of `b`, plus `b`. */
  lemma {:induction false} DigitsValueAppend(a: string, b: string)
    requires AllDigits(a) && AllDigits(b)
    ensures AllDigits(a + b)
    ensures DigitsValue(a + b) == DigitsValue(a) * Pow10(|b|) + DigitsValue(b)
    decreases |b|
  {
    AllDigitsAppend(a, b);
    if b == [] {
      assert a + b == a;
    } else {
      var b' := b[..|b| - 1];
      assert (a + b)[..|a + b| - 1] == a + b';
      assert (a + b)[|a + b| - 1] == b[|b| - 1];
      DigitsValueAppend(a, b');
      ShiftDigit(DigitsValue(a), Pow10(|b'|), DigitsValue(b'), (b[|b| - 1] as int) - ('0' as int));
    }
  }

  lemma {:induction false} ZerosValue(n: nat)
    ensures DigitsValue(Zeros(n)) == 0
  {
    if n > 0 {
      assert Zeros(n)[..n - 1] == Zeros(n - 1);
      ZerosValue(n - 1);
    }
  }

  /** Printing then reading a natural number gives it back. */
  lemma {:induction false} NatRoundTrip(n: nat)
    ensures DigitsValue(NatToString(n)) == n
  {
    if n >= 10 {
      var s := NatToString(n);
      assert s[..|s| - 1] == NatToString(n / 10);
      NatRoundTrip(n / 10);
    }
  }

  /** A number below `10^k` has at most `k` digits. */
  lemma {:induction false} NatToStringLength(n: nat, k: nat)
    requires k >= 1 && n < Pow10(k)
    ensures |NatToString(n)| <= k
  {
    if n >= 10 {
      assert k >= 2;
      assert n / 10 < Pow10(k - 1);
      NatToStringLength(n / 10, k - 1);
    }
  }

  lemma PaddedValue(n: nat, width: nat)
    ensures DigitsValue(Padded(n, width)) == n
  {
    var d := NatToString(n);
    NatRoundTrip(n);
    if |d| < width {
      var z := Zeros(width - |d|);
      assert Padded(n, width) == z + d;
      DigitsValueAppend(z, d);
      ZerosValue(width - |d|);
      ZeroTimes(Pow10(|d|));
    }
  }

  lemma ZeroTimes(p: int)
    ensures 0 * p == 0
  {
  }

  /** `strip` leaves a string alone when neither end is whitespace. */
  lemma StripUnchanged(s: string)
    requires s != [] && !IsSpace(s[0]) && !IsSpace(s[|s| - 1])
    ensures Strip(s) == s
  {
    assert SkipSpaces(s, 0) == 0;
    assert TrimEnd(s, |s|) == |s|;
    assert s[0..|s|] == s;
  }

  /** `int(str(i)) == i`. */
  lemma ParseIntRoundTrip(i: int)
    ensures ParseInt(IntToString(i)) == Some(i)
  {
    var s := IntToString(i);
    StripUnchanged(s);
    if i < 0 {
      NatRoundTrip(-i);
      assert s[1..] == NatToString(-i);
    } else {
      NatRoundTrip(i);
    }
  }

  /** The whole part and the last `k` digits make up the number again. */
  lemma {:induction false} HighLow(a: nat, k: nat)
    ensures High(a, k) * Pow10(k) + Low(a, k) == a
  {
    if k > 0 {
      HighLow(a / 10, k - 1);
      ShiftDigit(High(a / 10, k - 1), Pow10(k - 1), Low(a / 10, k - 1), a % 10);
    }
  }

  /** Reading a signed `whole.fraction` literal. */
  lemma ParseLiteral(s: string, negative: bool, whole: string, fraction: string)
    requires whole != [] && AllDigits(whole) && AllDigits(fraction)
    requires s == (if negative then "-" else "") + whole + "." + fraction
    ensures AllDigits(whole + fraction)
    ensures var v: int := DigitsValue(whole + fraction);
            ParseDecimal(s) == Some(Decimal(Signed(negative, v), |fraction|))
  {
    AllDigitsAppend(whole, fraction);
    var body := whole + "." + fraction;
    assert !IsSpace(s[0]) by {
      if !negative { assert s[0] == whole[0]; }
    }
    assert !IsSpace(s[|s| - 1]) by {
      if fraction == [] { assert s[|s| - 1] == '.'; } else { assert s[|s| - 1] == fraction[|fraction| - 1]; }
    }
    StripUnchanged(s);
    assert (s[0] == '-' || s[0] == '+') == negative && (s[0] == '-') == negative by {
      if !negative { assert s[0] == whole[0]; }
    }
    var u := if negative then s[1..] else s;
    assert u == body;
    assert ParseDecimal(s) == ParseBody(negative, u) by {
      assert Strip(s) == s;
    }
    ParseBodyLiteral(negative, whole, fraction);
  }

  lemma ParseBodyLiteral(negative: bool, whole: string, fraction: string)
    requires whole != [] && AllDigits(whole) && AllDigits(fraction)
    ensures AllDigits(whole + fraction)
    ensures var v: int := DigitsValue(whole + fraction);
            ParseBody(negative, whole + "." + fraction) == Some(Decimal(Signed(negative, v), |fraction|))
  {
    AllDigitsAppend(whole, fraction);
    var body := whole + "." + fraction;
    assert FindFrom(body, '.', 0) == |whole| by {
      assert forall k :: 0 <= k < |whole| ==> body[k] == whole[k] && IsDigit(whole[k]);
      assert body[|whole|] == '.';
    }
    assert body[..|whole|] == whole;
    assert body[|whole| + 1..] == fraction;
  }

  /** `float(str(x))` has the value of `x`: the shortest digits come back,
      with one fractional zero added to a whole number. */
  lemma ParseDecimalRoundTrip(d: Decimal)
    ensures ParseDecimal(DecimalToString(d)) == Some(Printed(d))
  {
    RenderRoundTrip(Normal(d));
  }

  /** Reading the rendered digits gives them back, with one fractional zero
      added to a whole number. */
  lemma RenderRoundTrip(d: Decimal)
    ensures ParseDecimal(Render(d)) == Some(if d.places == 0 then Decimal(d.scaled * 10, 1) else d)
  {
    var a: nat := if d.scaled < 0 then -d.scaled else d.scaled;
    PrintedDigits(a, d.places);
    LiteralRoundTrip(Render(d), d, NatToString(High(a, d.places)), Fraction(a, d.places));
  }

  /** Reading the sign, whole digits, point and fraction digits of `d`. */
  lemma LiteralRoundTrip(s: string, d: Decimal, whole: string, fraction: string)
    requires whole != [] && AllDigits(whole) && AllDigits(fraction)
    requires s == (if d.scaled < 0 then "-" else "") + whole + "." + fraction
    requires AllDigits(whole + fraction)
    requires var a := if d.scaled < 0 then -d.scaled else d.scaled;
             DigitsValue(whole + fraction) == (if d.places == 0 then a * 10 else a)
    requires |fraction| == (if d.places == 0 then 1 else d.places)
    ensures ParseDecimal(s) == Some(if d.places == 0 then Decimal(d.scaled * 10, 1) else d)
  {
    var v: int := DigitsValue(whole + fraction);
    var parsed := Some(Decimal(Signed(d.scaled < 0, v), |fraction|));
    PrintedSign(parsed, d, v, |fraction|);
    ParseLiteral(s, d.scaled < 0, whole, fraction);
    assert ParseDecimal(s) == parsed;
  }

  /** The sign of `d` goes back on the printed magnitude. */
  lemma PrintedSign(p: Option<Decimal>, d: Decimal, v: int, n: nat)
    requires p == Some(Decimal(Signed(d.scaled < 0, v), n))
    requires n == (if d.places == 0 then 1 else d.places)
    requires var a := if d.scaled < 0 then -d.scaled else d.scaled;
      v == (if d.places == 0 then a * 10 else a)
    ensures p == Some(if d.places == 0 then Decimal(d.scaled * 10, 1) else d)
  {
  }

  /** The digits printed for the magnitude `a` with `places` decimals read
      back as the scaled magnitude of `Printed`. */
  lemma PrintedDigits(a: nat, places: nat)
    ensures var whole := NatToString(High(a, places));
            var fraction := Fraction(a, places);
            AllDigits(whole + fraction) &&
            DigitsValue(whole + fraction) == (if places == 0 then a * 10 else a) &&
            |fraction| == (if places == 0 then 1 else places)
  {
    var whole := NatToString(High(a, places));
    var fraction := Fraction(a, places);
    DigitsValueAppend(whole, fraction);
    NatRoundTrip(High(a, places));
    FractionValue(a, places);
  }

  /** The printed fraction has `places` digits (one for a whole number) and,
      after the whole part, spells `a`. */
  lemma FractionValue(a: nat, places: nat)
    ensures places == 0 ==> Fraction(a, places) == "0"
    ensures places > 0 ==> |Fraction(a, places)| == places
    ensures High(a, places) * Pow10(|Fraction(a, places)|) + DigitsValue(Fraction(a, places))
         == (if places == 0 then a * 10 else a)
  {
    if places == 0 {
      assert Pow10(1) == 10;
      assert DigitsValue("0") == 0;
    } else {
      PaddedValue(Low(a, places), places);
      NatToStringLength(Low(a, places), places);
      HighLow(a, places);
    }
  }
}
