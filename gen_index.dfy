/**
 * The sort key of a design: `gen_to_float` in images/visualise.py turns the
 * persisted `generation_index` into a number with Python's `float()`, and
 * falls back to 0.0 when `float()` rejects the text with a ValueError.
 *
 * `float()` on a string is modelled by a small decimal parser: surrounding
 * ASCII whitespace, an optional sign, digits with an optional fraction, and
 * an optional exponent.
 */
module GenIndex {
  import opened Wrappers

  /** The JSON value stored under `generation_index`. */
  datatype GenValue =
    | GenNumber(number: real)   // a JSON number
    | GenBool(flag: bool)       // JSON true/false, which Python treats as 1 and 0
    | GenText(text: string)     // a JSON string
    | GenOther                  // null, an array or an object

  predicate IsDigit(c: char) { '0' <= c <= '9' }

  /** The characters `float()` strips from both ends (ASCII subset). */
  predicate IsSpace(c: char) {
    c == ' ' || c == '\t' || c == '\n' || c == '\r' || c == '\U{0B}' || c == '\U{0C}'
  }

  function DigitValue(c: char): (d: nat)
    requires IsDigit(c)
    ensures d < 10
  {
    (c as int - '0' as int) as nat
  }

  function DigitChar(d: nat): (c: char)
    requires d < 10
    ensures IsDigit(c) && DigitValue(c) == d
  {
    ('0' as int + d) as char
  }

  /** The value of a string of decimal digits, most significant first. */
  function DigitsValue(ds: string): nat
    requires forall i :: 0 <= i < |ds| ==> IsDigit(ds[i])
  {
    if ds == [] then 0 else 10 * DigitsValue(ds[..|ds| - 1]) + DigitValue(ds[|ds| - 1])
  }

  function Pow10(e: nat): (p: real)
    ensures p >= 1.0
  {
    if e == 0 then 1.0 else 10.0 * Pow10(e - 1)
  }

  /** 10 raised to an integer (possibly negative) exponent. */
  function Scale(e: int): (p: real)
    ensures p > 0.0
  {
    if e >= 0 then Pow10(e) else 1.0 / Pow10(-e)
  }

  /** The longest prefix of `s` made of digits. */
  function DigitPrefix(s: string): (p: string)
    ensures |p| <= |s| && p == s[..|p|]
    ensures forall i :: 0 <= i < |p| ==> IsDigit(p[i])
    ensures |p| < |s| ==> !IsDigit(s[|p|])
  {
    if s == [] || !IsDigit(s[0]) then [] else [s[0]] + DigitPrefix(s[1..])
  }

  function TrimStart(s: string): (t: string)
    ensures |t| <= |s| && t == s[|s| - |t|..]
    ensures t != [] ==> !IsSpace(t[0])
  {
    if s != [] && IsSpace(s[0]) then TrimStart(s[1..]) else s
  }

  function TrimEnd(s: string): (t: string)
    ensures |t| <= |s| && t == s[..|t|]
    ensures t != [] ==> !IsSpace(t[|t| - 1])
  {
    if s != [] && IsSpace(s[|s| - 1]) then TrimEnd(s[..|s| - 1]) else s
  }

  /** `s` without the whitespace `float()` ignores at either end. */
  function Strip(s: string): string {
    TrimEnd(TrimStart(s))
  }

  /** The exponent part after the mantissa: empty, or `e`/`E`, an optional sign and at least one digit. */
  function ParseExponent(s: string): Option<int> {
    if s == [] then Some(0)
    else if s[0] != 'e' && s[0] != 'E' then None
    else
      var neg := |s| > 1 && s[1] == '-';
      var body := if |s| > 1 && (s[1] == '+' || s[1] == '-') then s[2..] else s[1..];
      var ds := DigitPrefix(body);
      if ds == [] || |ds| != |body| then None
      else Some(if neg then -(DigitsValue(ds) as int) else DigitsValue(ds) as int)
  }

  /** An unsigned numeral cut into its integer digits, its fraction digits and what follows them. */
  datatype Numeral = Numeral(intPart: string, fracPart: string, tail: string)

  /** Cut `u` after its leading digits and, when a point follows, after the fraction's digits. */
  function SplitNumeral(u: string): (n: Numeral)
    ensures forall i :: 0 <= i < |n.intPart| ==> IsDigit(n.intPart[i])
    ensures forall i :: 0 <= i < |n.fracPart| ==> IsDigit(n.fracPart[i])
  {
    var intPart := DigitPrefix(u);
    var rest := u[|intPart|..];
    if rest != [] && rest[0] == '.' then
      var fracPart := DigitPrefix(rest[1..]);
      Numeral(intPart, fracPart, rest[1 + |fracPart|..])
    else Numeral(intPart, [], rest)
  }

  /**
   * The value of integer digits, fraction digits and a decimal exponent: the
   * digits read as one integer, times 10 to the exponent less the number of
   * fraction digits.
   */
  function NumeralValue(intPart: string, fracPart: string, e: int): real
    requires forall i :: 0 <= i < |intPart| ==> IsDigit(intPart[i])
    requires forall i :: 0 <= i < |fracPart| ==> IsDigit(fracPart[i])
  {
    Shifted(DigitsValue(intPart + fracPart), e - |fracPart|)
  }

  /** n times 10 to the (possibly negative) e. */
  function Shifted(n: nat, e: int): real {
    n as real * Scale(e)
  }

  /** The number a stripped, unsigned numeral denotes, or None when it is not a numeral. */
  function ParseUnsigned(u: string): (r: Option<real>)
    ensures r.Some? ==> exists i :: 0 <= i < |u| && IsDigit(u[i])
  {
    var n := SplitNumeral(u);
    if |n.intPart| + |n.fracPart| == 0 then None
    else
      match ParseExponent(n.tail)
      case None => None
      case Some(e) => Some(NumeralValue(n.intPart, n.fracPart, e))
  }

  /** Python's `float(s)` for the numerals this model accepts; None stands for a ValueError. */
  function ParseFloat(s: string): (r: Option<real>)
    ensures r.Some? ==> exists i :: 0 <= i < |s| && IsDigit(s[i])
  {
    var t := Strip(s);
    if t != [] && (t[0] == '+' || t[0] == '-') then
      match ParseUnsigned(t[1..])
      case None => None
      case Some(v) => Some(if t[0] == '-' then -v else v)
    else ParseUnsigned(t)
  }

  /**
   * `gen_to_float`: a number is taken as it is, a string is parsed and falls
   * back to 0.0 when it is not a numeral. None stands for the TypeError that
   * `float()` raises on null, arrays and objects, which the `except
   * ValueError` clause does not catch.
   */
  function GenToFloat(g: GenValue): (r: Option<real>)
    ensures r.None? <==> g.GenOther?
    ensures g.GenNumber? ==> r == Some(g.number)
    ensures g.GenBool? ==> r == Some(if g.flag then 1.0 else 0.0)
    ensures g.GenText? ==> r == Some(ParseFloat(g.text).GetOr(0.0))
  {
    match g
    case GenNumber(x) => Some(x)
    case GenBool(b) => Some(if b then 1.0 else 0.0)
    case GenText(s) =>
      (match ParseFloat(s)
       case Some(x) => Some(x)
       case None => Some(0.0))
    case GenOther => None
  }

  // ---------------------------------------------------------------------
  // Round trip: an index written as a decimal integer sorts by its value.
  // ---------------------------------------------------------------------

  /** The decimal numeral of `n`, as Python's `str(n)` writes it. */
  function NatToString(n: nat): (s: string)
    ensures s != [] && forall i :: 0 <= i < |s| ==> IsDigit(s[i])
    decreases n
  {
    if n < 10 then [DigitChar(n)] else NatToString(n / 10) + [DigitChar(n % 10)]
  }

  lemma {:induction false} DigitsValueOfNatToString(n: nat)
    ensures DigitsValue(NatToString(n)) == n
    decreases n
  {
    var s := NatToString(n);
    if n < 10 {
      assert s[..|s| - 1] == [];
    } else {
      assert s[..|s| - 1] == NatToString(n / 10);
      DigitsValueOfNatToString(n / 10);
    }
  }

  lemma {:induction false} DigitPrefixOfDigits(s: string)
    requires forall i :: 0 <= i < |s| ==> IsDigit(s[i])
    ensures DigitPrefix(s) == s
  {
    if s != [] {
      DigitPrefixOfDigits(s[1..]);
    }
  }

  /** A string that neither starts nor ends with whitespace is its own stripped form. */
  lemma StripUnpadded(s: string)
    requires s != [] && !IsSpace(s[0]) && !IsSpace(s[|s| - 1])
    ensures Strip(s) == s
  {
    assert TrimStart(s) == s;
  }

  /** A string of digits is all integer part, with no fraction and nothing after it. */
  lemma SplitDigits(ds: string)
    requires forall i :: 0 <= i < |ds| ==> IsDigit(ds[i])
    ensures SplitNumeral(ds) == Numeral(ds, [], [])
  {
    DigitPrefixOfDigits(ds);
    assert ds[|ds|..] == [];
  }

  lemma NumeralValueOfInteger(ds: string)
    requires forall i :: 0 <= i < |ds| ==> IsDigit(ds[i])
    ensures NumeralValue(ds, [], 0) == DigitsValue(ds) as real
  {
    assert ds + [] == ds;
    assert Pow10(0) == 1.0 && Scale(0) == 1.0;
  }

  lemma NumeralValueUnscaled(a: string, b: string)
    requires forall i :: 0 <= i < |a| ==> IsDigit(a[i])
    requires forall i :: 0 <= i < |b| ==> IsDigit(b[i])
    ensures NumeralValue(a, b, 0) == DigitsValue(a + b) as real / Pow10(|b|)
  {
    assert NumeralValue(a, b, 0) == Shifted(DigitsValue(a + b), -(|b| as int));
    ShiftedDown(DigitsValue(a + b), |b|);
  }

  /** n places down: d times 10 to the -n is d divided by 10 to the n. */
  lemma ShiftedDown(d: nat, n: nat)
    ensures Shifted(d, -(n as int)) == d as real / Pow10(n)
  {
    ScaleOfNegative(n);
    TimesInverse(d as real, Pow10(n));
  }

  /** n places up: d times 10 to the n. */
  lemma ShiftedUp(d: nat, n: nat)
    ensures Shifted(d, n) == d as real * Pow10(n)
  {
    assert Scale(n) == Pow10(n);
  }

  /** 10 to the -n is the reciprocal of 10 to the n, n = 0 included. */
  lemma ScaleOfNegative(n: nat)
    ensures Scale(-(n as int)) == 1.0 / Pow10(n)
  {
    if n == 0 {
      assert Pow10(0) == 1.0;
    }
  }

  lemma TimesInverse(x: real, p: real)
    requires p > 0.0
    ensures x * (1.0 / p) == x / p
  {
  }

  lemma NumeralValueOfExponent(a: string, e: int)
    requires forall i :: 0 <= i < |a| ==> IsDigit(a[i])
    ensures NumeralValue(a, [], e) == Shifted(DigitsValue(a), e)
  {
    assert a + [] == a;
  }

  /** A non-empty string of digits is an unsigned numeral worth its digits' value. */
  lemma ParseUnsignedDigits(ds: string)
    requires ds != [] && forall i :: 0 <= i < |ds| ==> IsDigit(ds[i])
    ensures ParseUnsigned(ds) == Some(DigitsValue(ds) as real)
  {
    SplitDigits(ds);
    NumeralValueOfInteger(ds);
    assert ParseExponent([]) == Some(0);
  }

  /** A numeral without surrounding space or sign parses to the integer it writes. */
  lemma ParseNatToString(n: nat)
    ensures ParseFloat(NatToString(n)) == Some(n as real)
  {
    var s := NatToString(n);
    StripUnpadded(s);
    assert !(s[0] == '+' || s[0] == '-');
    ParseUnsignedDigits(s);
    DigitsValueOfNatToString(n);
  }

  /** A text `generation_index` such as "12" is ordered by the number it writes. */
  lemma GenTextOfNat(n: nat)
    ensures GenToFloat(GenText(NatToString(n))) == Some(n as real)
  {
    ParseNatToString(n);
  }

  /** A string without a single digit is never a numeral, so its key is the 0.0 fallback. */
  lemma GenTextWithoutDigits(s: string)
    requires forall i :: 0 <= i < |s| ==> !IsDigit(s[i])
    ensures ParseFloat(s) == None
    ensures GenToFloat(GenText(s)) == Some(0.0)
  {
  }

  /** The digit prefix of digits followed by a non-digit is those digits. */
  lemma {:induction false} DigitPrefixStops(ds: string, rest: string)
    requires forall i :: 0 <= i < |ds| ==> IsDigit(ds[i])
    requires rest == [] || !IsDigit(rest[0])
    ensures DigitPrefix(ds + rest) == ds
  {
    if ds != [] {
      assert (ds + rest)[1..] == ds[1..] + rest;
      DigitPrefixStops(ds[1..], rest);
    }
  }

  lemma {:induction false} TrimStartSpaces(w: string, t: string)
    requires forall i :: 0 <= i < |w| ==> IsSpace(w[i])
    ensures TrimStart(w + t) == TrimStart(t)
  {
    if w == [] {
      assert w + t == t;
    } else {
      assert (w + t)[1..] == w[1..] + t;
      TrimStartSpaces(w[1..], t);
    }
  }

  lemma {:induction false} TrimEndSpaces(t: string, w: string)
    requires forall i :: 0 <= i < |w| ==> IsSpace(w[i])
    ensures TrimEnd(t + w) == TrimEnd(t)
  {
    if w == [] {
      assert t + w == t;
    } else {
      var w' := w[..|w| - 1];
      assert (t + w)[..|t + w| - 1] == t + w';
      TrimEndSpaces(t, w');
    }
  }

  /** `float()` on a string with nothing to strip and no sign is the unsigned parse. */
  lemma ParseUnpadded(u: string)
    requires Strip(u) == u && u != [] && u[0] != '+' && u[0] != '-'
    ensures ParseFloat(u) == ParseUnsigned(u)
  {
  }

  /** `float()` on a string whose stripped form is a sign and an unsigned numeral of value `v`. */
  lemma ParseSignedPart(s: string, t: string, v: real)
    requires Strip(s) == t && t != [] && (t[0] == '+' || t[0] == '-')
    requires ParseUnsigned(t[1..]) == Some(v)
    ensures ParseFloat(s) == Some(if t[0] == '-' then -v else v)
  {
  }

  /** The numeral `a.b`: integer digits, a point and fraction digits. */
  function PointText(a: string, b: string): (u: string)
    ensures |u| == |a| + |b| + 1 && u[|a|] == '.'
  {
    a + ['.'] + b
  }

  /** The value of `a.b`: the digits of a and b read as one integer, times 10 to the -|b|. */
  function FractionValue(a: string, b: string): real
    requires forall i :: 0 <= i < |a| ==> IsDigit(a[i])
    requires forall i :: 0 <= i < |b| ==> IsDigit(b[i])
  {
    assert forall i :: 0 <= i < |a + b| ==> IsDigit((a + b)[i]);
    Shifted(DigitsValue(a + b), -(|b| as int))
  }

  /** `a.b` has nothing to strip and no sign, so `float()` reads it as an unsigned numeral. */
  lemma PointTextUnsigned(a: string, b: string)
    requires forall i :: 0 <= i < |a| ==> IsDigit(a[i])
    requires forall i :: 0 <= i < |b| ==> IsDigit(b[i])
    ensures ParseFloat(PointText(a, b)) == ParseUnsigned(PointText(a, b))
  {
    var u := PointText(a, b);
    assert u[0] == if a == [] then '.' else a[0];
    assert u[|u| - 1] == if b == [] then '.' else b[|b| - 1];
    StripUnpadded(u);
  }

  lemma SplitFraction(a: string, b: string)
    requires forall i :: 0 <= i < |a| ==> IsDigit(a[i])
    requires forall i :: 0 <= i < |b| ==> IsDigit(b[i])
    ensures SplitNumeral(PointText(a, b)) == Numeral(a, b, [])
  {
    var u := PointText(a, b);
    assert u == a + (['.'] + b);
    DigitPrefixStops(a, ['.'] + b);
    var rest := u[|a|..];
    assert rest == ['.'] + b && rest[1..] == b;
    DigitPrefixOfDigits(b);
    assert rest[1 + |b|..] == [];
  }

  lemma ParseUnsignedFraction(a: string, b: string)
    requires forall i :: 0 <= i < |a| ==> IsDigit(a[i])
    requires forall i :: 0 <= i < |b| ==> IsDigit(b[i])
    requires |a| + |b| > 0
    ensures ParseUnsigned(PointText(a, b)) == Some(FractionValue(a, b))
  {
    SplitFraction(a, b);
    assert ParseExponent([]) == Some(0);
  }

  /**
   * A numeral with a point: `a.b` is the integer `ab` times 10 to the minus
   * the number of fraction digits ("2.5" is 2.5, "7." is 7, ".5" is 0.5).
   */
  lemma ParseFractionNumeral(a: string, b: string)
    requires forall i :: 0 <= i < |a| ==> IsDigit(a[i])
    requires forall i :: 0 <= i < |b| ==> IsDigit(b[i])
    requires |a| + |b| > 0
    ensures ParseFloat(PointText(a, b)) == Some(FractionValue(a, b))
  {
    PointTextUnsigned(a, b);
    ParseUnsignedFraction(a, b);
  }

  lemma SplitExponent(a: string, x: string)
    requires forall i :: 0 <= i < |a| ==> IsDigit(a[i])
    requires x != [] && x[0] == 'e'
    ensures SplitNumeral(a + x) == Numeral(a, [], x)
  {
    DigitPrefixStops(a, x);
    assert (a + x)[|a|..] == x;
  }

  /** `e` followed by digits is that number as exponent. */
  lemma ParsePlainExponent(s: string)
    requires |s| > 1 && s[0] == 'e' && IsDigit(s[1])
    requires DigitPrefix(s[1..]) == s[1..]
    ensures ParseExponent(s) == Some(DigitsValue(s[1..]) as int)
  {
  }

  /** `e-` followed by digits is that number negated as exponent. */
  lemma ParseNegatedExponent(s: string)
    requires |s| > 2 && s[0] == 'e' && s[1] == '-'
    requires DigitPrefix(s[2..]) == s[2..]
    ensures ParseExponent(s) == Some(-(DigitsValue(s[2..]) as int))
  {
  }

  /** The exponent part written for `neg` and k: `e`, a `-` when `neg`, and the digits of k. */
  function ExponentText(neg: bool, k: nat): (t: string)
    ensures |t| > 1 && t[0] == 'e' && t[|t| - 1] == NatToString(k)[|NatToString(k)| - 1]
    ensures neg ==> |t| > 2 && t[1] == '-' && t[2..] == NatToString(k)
    ensures !neg ==> t[1..] == NatToString(k)
  {
    (if neg then ['e', '-'] else ['e']) + NatToString(k)
  }

  lemma ParseExponentText(neg: bool, k: nat)
    ensures ParseExponent(ExponentText(neg, k)) == Some(if neg then -(k as int) else k)
  {
    var t := ExponentText(neg, k);
    DigitsValueOfNatToString(k);
    DigitPrefixOfDigits(NatToString(k));
    if neg {
      ParseNegatedExponent(t);
    } else {
      ParsePlainExponent(t);
    }
  }

  lemma ParseUnsignedExponent(m: nat, neg: bool, k: nat)
    ensures ParseUnsigned(NatToString(m) + ExponentText(neg, k))
      == Some(NumeralValue(NatToString(m), [], if neg then -(k as int) else k))
  {
    SplitExponent(NatToString(m), ExponentText(neg, k));
    ParseExponentText(neg, k);
  }

  /**
   * A numeral with an exponent: m followed by `e`, an optional `-` and k is
   * m times 10 to the k, or to the -k ("1e2" is 100, "5e-1" is 0.5).
   */
  lemma ParseExponentNumeral(m: nat, neg: bool, k: nat)
    ensures ParseFloat(NatToString(m) + ExponentText(neg, k))
      == Some(Shifted(m, if neg then -(k as int) else k))
  {
    var u := NatToString(m) + ExponentText(neg, k);
    assert u[0] == NatToString(m)[0] && u[|u| - 1] == ExponentText(neg, k)[|ExponentText(neg, k)| - 1];
    StripUnpadded(u);
    ParseUnsignedExponent(m, neg, k);
    NumeralValueOfExponent(NatToString(m), if neg then -(k as int) else k);
    DigitsValueOfNatToString(m);
    ParseUnpadded(u);
  }

  /** Whitespace around `t` is dropped when `t` neither starts nor ends with whitespace. */
  lemma StripSpaced(w1: string, t: string, w2: string)
    requires forall i :: 0 <= i < |w1| ==> IsSpace(w1[i])
    requires forall i :: 0 <= i < |w2| ==> IsSpace(w2[i])
    requires t != [] && !IsSpace(t[0]) && !IsSpace(t[|t| - 1])
    ensures Strip(w1 + t + w2) == t
  {
    assert w1 + t + w2 == w1 + (t + w2);
    TrimStartSpaces(w1, t + w2);
    TrimEndSpaces(t, w2);
  }

  /**
   * Surrounding whitespace is ignored and a sign applies: whitespace, `-`
   * (or `+`), the numeral of n and whitespace is -n (or n); " -3 " is -3.
   */
  lemma ParseSignedSpacedNumeral(w1: string, neg: bool, n: nat, w2: string)
    requires forall i :: 0 <= i < |w1| ==> IsSpace(w1[i])
    requires forall i :: 0 <= i < |w2| ==> IsSpace(w2[i])
    ensures ParseFloat(w1 + [if neg then '-' else '+'] + NatToString(n) + w2)
      == Some(if neg then -(n as real) else n as real)
  {
    var t := [if neg then '-' else '+'] + NatToString(n);
    assert w1 + [if neg then '-' else '+'] + NatToString(n) + w2 == w1 + t + w2;
    StripSpaced(w1, t, w2);
    assert t[1..] == NatToString(n);
    ParseUnsignedDigits(NatToString(n));
    DigitsValueOfNatToString(n);
    ParseSignedPart(w1 + t + w2, t, n as real);
  }

  /** An exponent marker without digits is rejected: "1e". */
  lemma ParseBareExponentExample()
    ensures ParseFloat("1e") == None
  {
    var s := "1e";
    assert TrimStart(s) == s && TrimEnd(s) == s;
    assert DigitPrefix(s) == "1" by { assert DigitPrefix(s[1..]) == []; }
    assert s[1..] == "e" && "e"[1..] == [];
    assert DigitPrefix([]) == [];
    assert ParseExponent("e") == None;
    assert ParseUnsigned(s) == None;
  }
}
