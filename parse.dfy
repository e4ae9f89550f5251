/** `parseInt` without a radix argument, as the product route applies it to
    the `stock` field, and the decimal rendering of a natural number that it
    inverts. */
module JsParse {
  import opened Common
  import opened JsString

  /** The value of `c` as a digit in base `radix` (10 or 16), if it is one. */
  function DigitValue(c: char, radix: nat): (r: Option<nat>)
    requires radix == 10 || radix == 16
    ensures r.Some? ==> r.value < radix
  {
    if '0' <= c <= '9' then Some(c as int - '0' as int)
    else if radix == 16 && 'a' <= c <= 'f' then Some(c as int - 'a' as int + 10)
    else if radix == 16 && 'A' <= c <= 'F' then Some(c as int - 'A' as int + 10)
    else None
  }

  predicate IsDigit(c: char, radix: nat)
    requires radix == 10 || radix == 16
  {
    DigitValue(c, radix).Some?
  }

  /** The longest prefix of `s` made of digits of base `radix`. */
  function DigitPrefix(s: string, radix: nat): (r: string)
    requires radix == 10 || radix == 16
    ensures |r| <= |s| && r == s[..|r|]
    ensures forall i :: 0 <= i < |r| ==> IsDigit(r[i], radix)
    ensures |r| < |s| ==> !IsDigit(s[|r|], radix)
  {
    if s != [] && IsDigit(s[0], radix) then [s[0]] + DigitPrefix(s[1..], radix) else []
  }

  /** The value of a string of digits, most significant first. */
  function DigitsValue(ds: string, radix: nat): nat
    requires radix == 10 || radix == 16
    requires forall i :: 0 <= i < |ds| ==> IsDigit(ds[i], radix)
  {
    if ds == [] then 0
    else
      var last := ds[|ds| - 1];
      assert IsDigit(last, radix);
      DigitsValue(ds[..|ds| - 1], radix) * radix + DigitValue(last, radix).value
  }

  /** `u` starts with the `0x` or `0X` that switches `parseInt` to base 16. */
  predicate HexPrefixed(u: string)
  {
    |u| >= 2 && u[0] == '0' && (u[1] == 'x' || u[1] == 'X')
  }

  /** `t` starts with a minus sign. */
  predicate Negative(t: string)
  {
    t != [] && t[0] == '-'
  }

  /** `t` without its leading sign, if it has one. */
  function Unsigned(t: string): (u: string)
    ensures t != [] && (t[0] == '-' || t[0] == '+') ==> u == t[1..]
    ensures t == [] || (t[0] != '-' && t[0] != '+') ==> u == t
  {
    if t != [] && (t[0] == '-' || t[0] == '+') then t[1..] else t
  }

  /** The unsigned part of `parseInt`: base 16 after a `0x` or `0X` prefix,
      base 10 otherwise, then the longest run of digits; `NaN` when there is
      none. */
  function ReadDigits(u: string): (r: JsNumber)
    ensures r.Num? ==> r.value >= 0.0 && r.value == r.value.Floor as real
    ensures u == [] || !IsDigit(u[0], 10) ==> r.NaN?
    ensures (u != [] && IsDigit(u[0], 10) && !HexPrefixed(u))
              ==> r == Num(DigitsValue(DigitPrefix(u, 10), 10) as real)
    ensures (HexPrefixed(u) && |u| >= 3 && IsDigit(u[2], 16))
              ==> r == Num(DigitsValue(DigitPrefix(u[2..], 16), 16) as real)
    // `0x` and no hexadecimal digit: NaN, not 0
    ensures HexPrefixed(u) && (|u| == 2 || !IsDigit(u[2], 16)) ==> r.NaN?
  {
    var hex := HexPrefixed(u);
    var radix := if hex then 16 else 10;
    var ds := DigitPrefix(if hex then u[2..] else u, radix);
    if ds == [] then NaN
    else
      var n := DigitsValue(ds, radix);
      IntegralReal(n);
      Num(n as real)
  }

  /** `parseInt` after the leading whitespace: an optional sign, then the
      unsigned part. With `u` the text after the sign, the ensures clauses
      cover every shape of `u`. */
  function ParseSigned(t: string): (r: JsNumber)
    ensures r.Num? ==> r.value == r.value.Floor as real
    // nothing after the optional sign, or no digit there: NaN
    ensures var u := Unsigned(t);
            u == [] || !IsDigit(u[0], 10) ==> r.NaN?
    // decimal digits: their value, negated after `-`
    ensures var u := Unsigned(t);
            (u != [] && IsDigit(u[0], 10) && !HexPrefixed(u))
              ==> (var n := DigitsValue(DigitPrefix(u, 10), 10) as real;
                   r == Num(if Negative(t) then -n else n))
    // `0x` with at least one hexadecimal digit after it: their value in base 16
    ensures var u := Unsigned(t);
            (HexPrefixed(u) && |u| >= 3 && IsDigit(u[2], 16))
              ==> (var n := DigitsValue(DigitPrefix(u[2..], 16), 16) as real;
                   r == Num(if Negative(t) then -n else n))
    // `0x` and no hexadecimal digit: NaN, not 0
    ensures var u := Unsigned(t);
            HexPrefixed(u) && (|u| == 2 || !IsDigit(u[2], 16)) ==> r.NaN?
  {
    var m := ReadDigits(Unsigned(t));
    if Negative(t) then Negated(m) else m
  }

  /** `parseInt(s)`: skip leading whitespace, then read a signed number
      (`ParseSigned`); `ParseIntAfterWhitespace` states the result for any
      padding. */
  function ParseInt(s: string): (r: JsNumber)
    ensures r.Num? ==> r.value == r.value.Floor as real
    ensures TrimStart(s) == [] ==> r.NaN?
  {
    ParseSigned(TrimStart(s))
  }

  /** Skipping a run of whitespace leaves the text that follows it, when
      that text does not itself start with whitespace. */
  lemma {:induction false} TrimStartAfterWhitespace(w: string, t: string)
    requires forall i :: 0 <= i < |w| ==> IsWhitespace(w[i])
    requires t == [] || !IsWhitespace(t[0])
    ensures TrimStart(w + t) == t
  {
    if w != [] {
      assert (w + t)[1..] == w[1..] + t;
      TrimStartAfterWhitespace(w[1..], t);
    } else {
      assert w + t == t;
    }
  }

  /** Leading whitespace is skipped whatever it is made of: `parseInt` of a
      padded text is the signed reading of the text after the padding. */
  lemma ParseIntAfterWhitespace(w: string, t: string)
    requires forall i :: 0 <= i < |w| ==> IsWhitespace(w[i])
    requires t == [] || !IsWhitespace(t[0])
    ensures ParseInt(w + t) == ParseSigned(t)
  {
    TrimStartAfterWhitespace(w, t);
  }

  /** Unary minus: `NaN` stays `NaN`, and an integer stays an integer. */
  function Negated(m: JsNumber): (r: JsNumber)
    ensures m.NaN? ==> r.NaN?
    ensures m.Num? ==> r == Num(-m.value)
    ensures m.Num? && m.value == m.value.Floor as real ==> r.value == r.value.Floor as real
  {
    match m
    case NaN => NaN
    case Num(v) =>
      IntegralReal(-v.Floor);
      Num(-v)
  }

  /** An integer read as a real has no fractional part. */
  lemma IntegralReal(v: int)
    ensures (v as real).Floor == v
  {
  }

  function DigitChar(d: nat): (c: char)
    requires d < 10
    ensures IsDigit(c, 10) && DigitValue(c, 10) == Some(d)
  {
    ('0' as int + d) as char
  }

  /** The decimal rendering of `n`, without leading zeros. */
  function NatToString(n: nat): (s: string)
    ensures s != [] && forall i :: 0 <= i < |s| ==> IsDigit(s[i], 10)
    ensures |s| > 1 ==> s[0] != '0'
  {
    if n < 10 then [DigitChar(n)] else NatToString(n / 10) + [DigitChar(n % 10)]
  }

  /** Reading back the digits of `NatToString(n)` gives `n`. */
  lemma {:induction false} DigitsValueOfNatToString(n: nat)
    ensures DigitsValue(NatToString(n), 10) == n
  {
    var s := NatToString(n);
    if n >= 10 {
      DigitsValueOfNatToString(n / 10);
      assert s[..|s| - 1] == NatToString(n / 10);
    }
  }

  /** A whole-digit string is its own longest digit prefix. */
  lemma {:induction false} DigitPrefixOfDigits(s: string)
    requires forall i :: 0 <= i < |s| ==> IsDigit(s[i], 10)
    ensures DigitPrefix(s, 10) == s
  {
    if s != [] {
      DigitPrefixOfDigits(s[1..]);
    }
  }

  /** `parseInt` reads back what `String(n)` writes for a natural number:
      the stock `"12"` is stored as 12. */
  lemma ParseIntOfNatToString(n: nat)
    ensures ParseInt(NatToString(n)) == Num(n as real)
  {
    var s := NatToString(n);
    assert !IsWhitespace(s[0]) by { assert IsDigit(s[0], 10); }
    assert TrimStart(s) == s;
    assert Unsigned(s) == s && !Negative(s) && !HexPrefixed(s);
    DigitPrefixOfDigits(s);
    DigitsValueOfNatToString(n);
  }

  /** The same for a negative number: `"-" + String(n)` reads back as `-n`. */
  lemma ParseIntOfNegatedNatToString(n: nat)
    ensures ParseInt("-" + NatToString(n)) == Num(-(n as real))
  {
    var d := NatToString(n);
    var s := "-" + d;
    assert s[1..] == d;
    assert TrimStart(s) == s by { assert !IsWhitespace(s[0]); }
    assert Unsigned(s) == d && Negative(s) && IsDigit(d[0], 10) && !HexPrefixed(d);
    DigitPrefixOfDigits(d);
    DigitsValueOfNatToString(n);
    assert DigitsValue(DigitPrefix(d, 10), 10) == n;
  }
}
