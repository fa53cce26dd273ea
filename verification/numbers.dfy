/**
 * The JavaScript primitives the engine compares with: the relational `<` on
 * strings, and the `parseInt` / `parseFloat` number parsers. A parse that
 * yields NaN is `None`; every comparison with it is false.
 */
module Numbers {
  import opened Wrappers

  /**
   * JavaScript `a < b` on two strings: lexicographic by character code, a
   * proper prefix before any longer string.
   */
  predicate LexLess(a: string, b: string)
    ensures LexLess(a, b) ==> a != b
    ensures |a| < |b| && a == b[..|a|] ==> LexLess(a, b)
    decreases |a|
  {
    if a == [] then b != []
    else if b == [] then false
    else if a[0] != b[0] then a[0] < b[0]
    else LexLess(a[1..], b[1..])
  }

  lemma {:induction false} LexLessIrreflexive(a: string)
    ensures !LexLess(a, a)
    decreases |a|
  {
    if a != [] {
      LexLessIrreflexive(a[1..]);
    }
  }

  lemma {:induction false} LexLessAsymmetric(a: string, b: string)
    ensures LexLess(a, b) ==> !LexLess(b, a)
    decreases |a|
  {
    if a != [] && b != [] && a[0] == b[0] {
      LexLessAsymmetric(a[1..], b[1..]);
    }
  }

  lemma {:induction false} LexLessTransitive(a: string, b: string, c: string)
    ensures LexLess(a, b) && LexLess(b, c) ==> LexLess(a, c)
    decreases |a|
  {
    if a != [] && b != [] && c != [] && a[0] == b[0] && b[0] == c[0] {
      LexLessTransitive(a[1..], b[1..], c[1..]);
    }
  }

  /** Two different strings are always ordered one way or the other. */
  lemma {:induction false} LexLessTotal(a: string, b: string)
    ensures a == b || LexLess(a, b) || LexLess(b, a)
    decreases |a|
  {
    if a != [] && b != [] && a[0] == b[0] {
      LexLessTotal(a[1..], b[1..]);
      if a[1..] == b[1..] {
        assert a == [a[0]] + a[1..] && b == [b[0]] + b[1..];
      }
    }
  }

  /** Not-less is transitive: the property a comparison sort relies on. */
  lemma LexNotLessTransitive(a: string, b: string, c: string)
    ensures !LexLess(a, b) && !LexLess(b, c) ==> !LexLess(a, c)
  {
    LexLessTotal(a, b);
    LexLessTotal(b, c);
    LexLessTransitive(c, b, a);
    LexLessAsymmetric(a, c);
    LexLessIrreflexive(a);
  }

  /** The characters `parseInt` and `parseFloat` skip before a number: white space and line terminators. */
  predicate IsSpace(c: char)
  {
    || c == ' ' || c == '\t' || c == '\n' || c == '\r'
    || c == '\U{000B}' || c == '\U{000C}' || c == '\U{00A0}' || c == '\U{FEFF}'
    || c == '\U{1680}' || ('\U{2000}' <= c <= '\U{200A}')
    || c == '\U{2028}' || c == '\U{2029}' || c == '\U{202F}' || c == '\U{205F}' || c == '\U{3000}'
  }

  predicate IsDigit(c: char)
  {
    '0' <= c <= '9'
  }

  function TrimStart(s: string): string
  {
    if s != [] && IsSpace(s[0]) then TrimStart(s[1..]) else s
  }

  /** The longest prefix of `s` made of decimal digits. */
  function DigitPrefix(s: string): (r: string)
    ensures |r| <= |s| && r == s[..|r|]
  {
    if s != [] && IsDigit(s[0]) then [s[0]] + DigitPrefix(s[1..]) else []
  }

  function DigitsValue(ds: string): nat
  {
    if ds == [] then 0
    else
      var d := (ds[|ds| - 1] as int) - ('0' as int);
      10 * DigitsValue(ds[..|ds| - 1]) + (if 0 <= d then d else 0)
  }

  /** The value of the digits after a decimal point: `0.d1d2...`. */
  function FractionValue(ds: string): real
  {
    if ds == [] then 0.0
    else
      var d := (ds[0] as int) - ('0' as int);
      ((if 0 <= d then d else 0) as real + FractionValue(ds[1..])) / 10.0
  }

  /** Splits an optional leading sign off: `(negative, rest)`. */
  function Sign(s: string): (bool, string)
  {
    if s != [] && (s[0] == '-' || s[0] == '+') then (s[0] == '-', s[1..]) else (false, s)
  }

  /** `parseInt(s)` in base 10: sign and leading digits after white space; NaN when there are none. */
  function ParseInt(s: Option<string>): (r: Option<int>)
    ensures s.None? ==> r.None?
    ensures s.Some? && NoDigits(s.value) ==> r.None?
    ensures s.Some? && s.value != [] && AllDigits(s.value) ==> r == Some(DigitsValue(s.value) as int)
  {
    match s
    case None => None
    case Some(text) =>
      DigitStringParts(text);
      NoDigitParts(text);
      var (negative, body) := Sign(TrimStart(text));
      var digits := DigitPrefix(body);
      if digits == [] then None
      else Some(if negative then -(DigitsValue(digits) as int) else DigitsValue(digits) as int)
  }

  /** The decimal exponent of an `e`/`E` suffix, when one with at least one digit follows the mantissa. */
  function Exponent(s: string): int
  {
    if s != [] && (s[0] == 'e' || s[0] == 'E') then
      var (negative, body) := Sign(s[1..]);
      var digits := DigitPrefix(body);
      if digits == [] then 0
      else if negative then -(DigitsValue(digits) as int) else DigitsValue(digits) as int
    else 0
  }

  /** `m * 10^e`. */
  function Scale(m: real, e: int): real
    decreases if e >= 0 then e else -e
  {
    if e == 0 then m else if e > 0 then Scale(m * 10.0, e - 1) else Scale(m / 10.0, e + 1)
  }

  /**
   * `parseFloat(s)`: sign, integer digits, an optional fraction and an optional
   * exponent after white space, ignoring what follows; NaN when the mantissa
   * has no digit. Values are exact rationals.
   */
  function ParseFloat(s: Option<string>): (r: Option<real>)
    ensures s.None? ==> r.None?
    ensures s.Some? && NoDigits(s.value) ==> r.None?
    ensures s.Some? && s.value != [] && AllDigits(s.value) ==> r == Some(DigitsValue(s.value) as real)
  {
    match s
    case None => None
    case Some(text) =>
      DigitStringParts(text);
      NoDigitParts(text);
      var (negative, body) := Sign(TrimStart(text));
      var whole := DigitPrefix(body);
      var rest := body[|whole|..];
      var fraction := if rest != [] && rest[0] == '.' then DigitPrefix(rest[1..]) else [];
      var after := if rest != [] && rest[0] == '.' then rest[1 + |fraction|..] else rest;
      if whole == [] && fraction == [] then None
      else
        var mantissa := (DigitsValue(whole) as real) + FractionValue(fraction);
        var magnitude := Scale(mantissa, Exponent(after));
        Some(if negative then -magnitude else magnitude)
  }

  /** Every character of `s` is a decimal digit. */
  predicate AllDigits(s: string)
  {
    forall i :: 0 <= i < |s| ==> IsDigit(s[i])
  }

  /** No character of `s` is a decimal digit. */
  predicate NoDigits(s: string)
  {
    forall i :: 0 <= i < |s| ==> !IsDigit(s[i])
  }

  lemma {:induction false} DigitPrefixOfDigits(ds: string)
    requires AllDigits(ds)
    ensures DigitPrefix(ds) == ds
    decreases |ds|
  {
    if ds != [] {
      DigitPrefixOfDigits(ds[1..]);
      assert ds == [ds[0]] + ds[1..];
    }
  }

  lemma {:induction false} TrimStartKeepsNoDigits(s: string)
    requires NoDigits(s)
    ensures NoDigits(TrimStart(s))
    decreases |s|
  {
    if s != [] && IsSpace(s[0]) {
      TrimStartKeepsNoDigits(s[1..]);
    }
  }

  /** A plain digit string has no white space or sign to skip and is all digit prefix. */
  lemma DigitStringParts(s: string)
    ensures s != [] && AllDigits(s) ==>
      TrimStart(s) == s && Sign(s) == (false, s) && DigitPrefix(s) == s && s[|s|..] == []
  {
    if s != [] && AllDigits(s) {
      assert !IsSpace(s[0]);
      DigitPrefixOfDigits(s);
    }
  }

  /** In a string without digits, neither the whole part nor a fraction has one. */
  lemma NoDigitParts(s: string)
    ensures NoDigits(s) ==>
      var body := Sign(TrimStart(s)).1;
      && DigitPrefix(body) == [] && body[0..] == body
      && (body != [] && body[0] == '.' ==> DigitPrefix(body[1..]) == [])
  {
    if NoDigits(s) {
      TrimStartKeepsNoDigits(s);
      var t := TrimStart(s);
      var body := Sign(t).1;
      assert NoDigits(body) by {
        if t != [] && (t[0] == '-' || t[0] == '+') {
          assert forall i :: 0 <= i < |body| ==> body[i] == t[i + 1];
        }
      }
      if |body| > 1 {
        assert body[1..][0] == body[1];
      }
    }
  }

  lemma TenThousand()
    ensures ParseFloat(Some("10000")) == Some(10000.0)
  {
    assert AllDigits("10000");
    assert DigitsValue("1") == 1 by { assert "1"[..0] == ""; }
    assert DigitsValue("10") == 10 by { assert "10"[..1] == "1"; }
    assert DigitsValue("100") == 100 by { assert "100"[..2] == "10"; }
    assert DigitsValue("1000") == 1000 by { assert "1000"[..3] == "100"; }
    assert DigitsValue("10000") == 10000 by { assert "10000"[..4] == "1000"; }
  }
}
