/**
 * The string and number conventions of Python that the server relies on:
 * ASCII digit strings and `int()` on them, `format(n, "0Wd")` zero padding,
 * string ordering, single-character `str.replace`, `str.isspace`, and a
 * decimal-literal subset of `float()`.
 */
module Text {
  import opened Wrappers

  // ---------------------------------------------------------------- digits

  predicate IsDigit(c: char) { '0' <= c <= '9' }

  predicate AllDigits(s: string) { forall i :: 0 <= i < |s| ==> IsDigit(s[i]) }

  function DigitValue(c: char): (d: nat)
    requires IsDigit(c)
    ensures d < 10
  {
    c as int - '0' as int
  }

  function DigitChar(d: nat): (c: char)
    requires d < 10
    ensures IsDigit(c) && DigitValue(c) == d
  {
    ('0' as int + d) as char
  }

  function Pow10(k: nat): (p: nat)
    ensures p >= 1
  {
    if k == 0 then 1 else 10 * Pow10(k - 1)
  }

  /** Python's `int(s)` on a string of ASCII digits (leading zeros allowed). */
  function DigitsValue(s: string): (v: nat)
    requires AllDigits(s)
    ensures v < Pow10(|s|)
    decreases |s|
  {
    if s == [] then 0 else DigitsValue(s[..|s| - 1]) * 10 + DigitValue(s[|s| - 1])
  }

  /** The last `w` decimal digits of `n`, most significant first. */
  function Fixed(n: nat, w: nat): (s: string)
    ensures |s| == w && AllDigits(s)
  {
    if w == 0 then [] else Fixed(n / 10, w - 1) + [DigitChar(n % 10)]
  }

  /** Number of digits of `n` written without leading zeros. */
  function NumDigits(n: nat): (k: nat)
    ensures 1 <= k && n < Pow10(k)
  {
    if n < 10 then 1 else 1 + NumDigits(n / 10)
  }

  /** `str(n)` for a natural number. */
  function Decimal(n: nat): string
  {
    Fixed(n, NumDigits(n))
  }

  /** `n` written with at least `w` digits, padded on the left with zeros. */
  function ZeroPad(n: nat, w: nat): string
  {
    Fixed(n, if w > NumDigits(n) then w else NumDigits(n))
  }

  /**
   * Python's `format(n, "0{width}d")`: the width counts the sign, and the
   * zeros go between the sign and the digits.
   */
  function FormatInt(n: int, width: nat): string
  {
    if n < 0 then "-" + ZeroPad(-n, if width > 0 then width - 1 else 0)
    else ZeroPad(n, width)
  }

  /** Python's `str(n)` for an integer. */
  function IntToString(n: int): (r: string)
    ensures n >= 0 ==> r == Decimal(n)
    ensures n < 0 ==> r == "-" + Decimal(-n)
  {
    FormatInt(n, 0)
  }

  lemma {:induction false} FixedValue(n: nat, w: nat)
    requires n < Pow10(w)
    ensures DigitsValue(Fixed(n, w)) == n
  {
    if w > 0 {
      assert n / 10 < Pow10(w - 1);
      FixedValue(n / 10, w - 1);
      var s := Fixed(n, w);
      assert s[..|s| - 1] == Fixed(n / 10, w - 1);
    }
  }

  lemma {:induction false} ValueFixed(s: string)
    requires AllDigits(s)
    ensures Fixed(DigitsValue(s), |s|) == s
  {
    if s != [] {
      var init := s[..|s| - 1];
      var c := s[|s| - 1];
      ValueFixed(init);
      var v := DigitsValue(s);
      assert v / 10 == DigitsValue(init);
      assert v % 10 == DigitValue(c);
      assert DigitChar(DigitValue(c)) == c;
      assert s == init + [c];
    }
  }

  lemma {:induction false} NumDigitsAtMost(n: nat, w: nat)
    requires 1 <= w && n < Pow10(w)
    ensures NumDigits(n) <= w
  {
    if n >= 10 {
      assert n / 10 < Pow10(w - 1);
      NumDigitsAtMost(n / 10, w - 1);
    }
  }

  /** A number below 10^w is zero-padded to exactly w digits, which read back as the number. */
  lemma PadRoundTrip(n: nat, w: nat)
    requires 1 <= w && n < Pow10(w)
    ensures FormatInt(n, w) == Fixed(n, w)
    ensures |FormatInt(n, w)| == w && AllDigits(FormatInt(n, w))
    ensures DigitsValue(FormatInt(n, w)) == n
  {
    NumDigitsAtMost(n, w);
    FixedValue(n, w);
  }

  /** `int(str(n)) == n`. */
  lemma DecimalRoundTrip(n: nat)
    ensures AllDigits(Decimal(n)) && |Decimal(n)| >= 1
    ensures DigitsValue(Decimal(n)) == n
  {
    FixedValue(n, NumDigits(n));
  }

  // ------------------------------------------------------ string ordering

  /** Python's `a < b` on strings: code-point lexicographic order. */
  predicate LexLess(a: string, b: string)
  {
    if a == [] then b != []
    else if b == [] then false
    else if a[0] != b[0] then a[0] < b[0]
    else LexLess(a[1..], b[1..])
  }

  lemma {:induction false} LexIrreflexive(a: string)
    ensures !LexLess(a, a)
  {
    if a != [] { LexIrreflexive(a[1..]); }
  }

  lemma {:induction false} LexAsymmetric(a: string, b: string)
    requires LexLess(a, b)
    ensures !LexLess(b, a)
  {
    if a != [] && b != [] && a[0] == b[0] { LexAsymmetric(a[1..], b[1..]); }
  }

  lemma {:induction false} LexTotal(a: string, b: string)
    requires a != b
    ensures LexLess(a, b) || LexLess(b, a)
  {
    if a != [] && b != [] && a[0] == b[0] {
      assert a == [a[0]] + a[1..] && b == [b[0]] + b[1..];
      LexTotal(a[1..], b[1..]);
    }
  }

  lemma {:induction false} LexTransitive(a: string, b: string, c: string)
    requires LexLess(a, b) && LexLess(b, c)
    ensures LexLess(a, c)
  {
    if a != [] && b != [] && c != [] && a[0] == b[0] && b[0] == c[0] {
      LexTransitive(a[1..], b[1..], c[1..]);
    }
  }

  /** Comparing two concatenations whose first parts have equal length. */
  lemma {:induction false} LexConcat(x: string, y: string, u: string, v: string)
    requires |x| == |y|
    ensures LexLess(x + u, y + v) <==> LexLess(x, y) || (x == y && LexLess(u, v))
  {
    if x == [] {
      assert x + u == u && y + v == v;
    } else {
      assert (x + u)[0] == x[0] && (y + v)[0] == y[0];
      assert (x + u)[1..] == x[1..] + u && (y + v)[1..] == y[1..] + v;
      LexConcat(x[1..], y[1..], u, v);
      if x[0] == y[0] {
        assert x == y <==> x[1..] == y[1..] by {
          assert x == [x[0]] + x[1..] && y == [y[0]] + y[1..];
        }
      }
    }
  }

  /** Fixed-width digit strings are ordered like the numbers they denote. */
  lemma {:induction false} FixedLexOrder(a: nat, b: nat, w: nat)
    requires a < Pow10(w) && b < Pow10(w)
    ensures LexLess(Fixed(a, w), Fixed(b, w)) <==> a < b
  {
    if w == 0 {
      LexIrreflexive([]);
    } else {
      var x, y := Fixed(a / 10, w - 1), Fixed(b / 10, w - 1);
      var ca, cb := DigitChar(a % 10), DigitChar(b % 10);
      assert a / 10 < Pow10(w - 1) && b / 10 < Pow10(w - 1);
      FixedLexOrder(a / 10, b / 10, w - 1);
      LexConcat(x, y, [ca], [cb]);
      FixedValue(a / 10, w - 1);
      FixedValue(b / 10, w - 1);
      assert x == y <==> a / 10 == b / 10;
      assert LexLess([ca], [cb]) <==> a % 10 < b % 10 by {
        if ca == cb { LexIrreflexive([]); }
      }
    }
  }

  // ------------------------------------------------------ str.replace

  /** Python's `s.replace(from, to)` for single characters. */
  function Replace(s: string, from: char, to: char): (r: string)
    ensures |r| == |s|
    ensures forall i :: 0 <= i < |s| ==> r[i] == (if s[i] == from then to else s[i])
  {
    if s == [] then [] else [if s[0] == from then to else s[0]] + Replace(s[1..], from, to)
  }

  lemma ReplaceConcat(a: string, b: string, from: char, to: char)
    ensures Replace(a + b, from, to) == Replace(a, from, to) + Replace(b, from, to)
  {
    var l, r := Replace(a + b, from, to), Replace(a, from, to) + Replace(b, from, to);
    assert |l| == |r|;
    forall i | 0 <= i < |l| ensures l[i] == r[i] {
      if i < |a| { assert (a + b)[i] == a[i]; } else { assert (a + b)[i] == b[i - |a|]; }
    }
  }

  // ------------------------------------------------------ whitespace

  /** Python's `str.isspace` for one character: the separators of `split()` and `strip()`. */
  predicate IsSpace(c: char)
  {
    c == ' ' || c == '\t' || c == '\n' || c == '\r' || c == '\U{000B}' || c == '\U{000C}'
    || ('\U{001C}' <= c <= '\U{001F}') || c == '\U{0085}' || c == '\U{00A0}' || c == '\U{1680}'
    || ('\U{2000}' <= c <= '\U{200A}') || c == '\U{2028}' || c == '\U{2029}' || c == '\U{202F}'
    || c == '\U{205F}' || c == '\U{3000}'
  }

  predicate AllSpace(s: string) { forall i :: 0 <= i < |s| ==> IsSpace(s[i]) }

  predicate NoSpace(s: string) { forall i :: 0 <= i < |s| ==> !IsSpace(s[i]) }

  /** Index of the first character of `s` that is `a` or `b`, or `|s|` when there is none. */
  function IndexOfEither(s: string, a: char, b: char): (k: nat)
    ensures k <= |s|
    ensures forall i :: 0 <= i < k ==> s[i] != a && s[i] != b
    ensures k < |s| ==> s[k] == a || s[k] == b
  {
    if s == [] then 0 else if s[0] == a || s[0] == b then 0 else 1 + IndexOfEither(s[1..], a, b)
  }

  /** Index of the first `c` in `s`, or `|s|` when there is none (`str.find` without the -1). */
  function IndexOf(s: string, c: char): (k: nat)
    ensures k <= |s|
    ensures forall i :: 0 <= i < k ==> s[i] != c
    ensures k < |s| ==> s[k] == c
  {
    if s == [] then 0 else if s[0] == c then 0 else 1 + IndexOf(s[1..], c)
  }

  /** Number of leading whitespace characters of `s`. */
  function LeadingSpace(s: string): (k: nat)
    ensures k <= |s| && AllSpace(s[..k])
    ensures k < |s| ==> !IsSpace(s[k])
  {
    if s == [] || !IsSpace(s[0]) then 0 else 1 + LeadingSpace(s[1..])
  }

  /** Length of the run of non-whitespace characters at the start of `s`. */
  function TokenLength(s: string): (k: nat)
    ensures k <= |s| && NoSpace(s[..k])
    ensures k < |s| ==> IsSpace(s[k])
  {
    if s == [] || IsSpace(s[0]) then 0 else 1 + TokenLength(s[1..])
  }

  /**
   * Python's `s.strip().split()[0]`: the first whitespace-separated token,
   * or None where `split()` gives an empty list (and indexing it raises).
   */
  function FirstToken(s: string): (r: Option<string>)
    ensures r.None? <==> AllSpace(s)
    ensures r.Some? ==> |r.value| > 0 && NoSpace(r.value)
  {
    var k := LeadingSpace(s);
    if k == |s| then
      assert s[..k] == s;
      None
    else
      var t := s[k..][..TokenLength(s[k..])];
      assert !AllSpace(s) by { assert !IsSpace(s[k]); }
      assert t[0] == s[k];
      Some(t)
  }

  lemma LeadingSpaceAt(s: string, k: nat)
    requires k <= |s| && AllSpace(s[..k]) && (k < |s| ==> !IsSpace(s[k]))
    ensures LeadingSpace(s) == k
  {
    var j := LeadingSpace(s);
    forall i | 0 <= i < k ensures IsSpace(s[i]) { assert s[..k][i] == s[i]; }
    forall i | 0 <= i < j ensures IsSpace(s[i]) { assert s[..j][i] == s[i]; }
  }

  lemma TokenLengthAt(s: string, k: nat)
    requires k <= |s| && NoSpace(s[..k]) && (k < |s| ==> IsSpace(s[k]))
    ensures TokenLength(s) == k
  {
    var j := TokenLength(s);
    forall i | 0 <= i < k ensures !IsSpace(s[i]) { assert s[..k][i] == s[i]; }
    forall i | 0 <= i < j ensures !IsSpace(s[i]) { assert s[..j][i] == s[i]; }
  }

  /** `FirstToken` is the token that follows the leading blanks and ends at a blank or the end. */
  lemma FirstTokenOf(lead: string, token: string, rest: string)
    requires AllSpace(lead) && |token| > 0 && NoSpace(token)
    requires rest == [] || IsSpace(rest[0])
    ensures FirstToken(lead + token + rest) == Some(token)
  {
    var s := lead + token + rest;
    assert s[..|lead|] == lead;
    LeadingSpaceAt(s, |lead|);
    var t := s[|lead|..];
    assert t == token + rest;
    assert t[..|token|] == token;
    TokenLengthAt(t, |token|);
  }

  // ------------------------------------------------------ float()

  /** A run of at least one ASCII digit, read as a number. */
  function ParseUnsigned(s: string): Option<nat>
  {
    if |s| > 0 && AllDigits(s) then Some(DigitsValue(s)) else None
  }

  /** `digits [. digits]` or `. digits`, with at least one digit in all. */
  function ParseMantissa(s: string): Option<real>
  {
    var d := IndexOf(s, '.');
    var whole := s[..d];
    var frac := if d < |s| then s[d + 1..] else [];
    if AllDigits(whole) && AllDigits(frac) && |whole| + |frac| > 0 then
      Some(PointValue(DigitsValue(whole), DigitsValue(frac), |frac|))
    else None
  }

  /** The value of the literal `whole.frac` where `frac` has `k` digits: `whole + frac / 10^k`. */
  function PointValue(whole: nat, frac: nat, k: nat): real
  {
    whole as real + Scale(frac as real, -(k as int))
  }

  /** An exponent: an optional sign followed by at least one digit. */
  function ParseExponent(s: string): Option<int>
  {
    if |s| > 0 && s[0] == '-' then
      match ParseUnsigned(s[1..]) case Some(k) => Some(-(k as int)) case None => None
    else if |s| > 0 && s[0] == '+' then
      match ParseUnsigned(s[1..]) case Some(k) => Some(k) case None => None
    else
      match ParseUnsigned(s) case Some(k) => Some(k) case None => None
  }

  /** `m * 10^k`, one decimal shift at a time. */
  function Scale(m: real, k: int): real
    decreases if k >= 0 then k else -k
  {
    if k == 0 then m
    else if k > 0 then Scale(m, k - 1) * 10.0
    else Scale(m, k + 1) / 10.0
  }

  /** An unsigned decimal literal with an optional exponent. */
  function ParseUnsignedNumber(s: string): Option<real>
  {
    var e := IndexOfEither(s, 'e', 'E');
    match ParseMantissa(s[..e])
    case None => None
    case Some(m) =>
      if e == |s| then Some(m)
      else match ParseExponent(s[e + 1..])
        case None => None
        case Some(k) => Some(Scale(m, k))
  }

  /**
   * Python's `float(token)` on a token without whitespace, restricted to
   * decimal literals: `[+-] (digits [. [digits]] | . digits) [(e|E) [+-] digits]`.
   * None stands for the ValueError that `float()` raises.
   */
  function ParseNumber(s: string): (r: Option<real>)
    ensures r.Some? ==> |s| > 0 && (s[0] == '+' || s[0] == '-' || s[0] == '.' || IsDigit(s[0]))
  {
    if |s| > 0 && s[0] == '-' then
      match ParseUnsignedNumber(s[1..]) case Some(x) => Some(-x) case None => None
    else if |s| > 0 && s[0] == '+' then ParseUnsignedNumber(s[1..])
    else ParseUnsignedNumber(s)
  }

  lemma IndexOfAt(s: string, c: char, k: nat)
    requires k < |s| && s[k] == c
    requires forall i :: 0 <= i < k ==> s[i] != c
    ensures IndexOf(s, c) == k
  {
  }

  lemma IndexOfEitherAt(s: string, a: char, b: char, k: nat)
    requires k < |s| && (s[k] == a || s[k] == b)
    requires forall i :: 0 <= i < k ==> s[i] != a && s[i] != b
    ensures IndexOfEither(s, a, b) == k
  {
  }

  lemma ParseUnsignedWithoutExponent(s: string)
    requires IndexOfEither(s, 'e', 'E') == |s|
    ensures ParseUnsignedNumber(s) == ParseMantissa(s)
  {
    assert s[..|s|] == s;
  }

  /**
   * `float(whole + "." + frac)` reads back the fixed-point value the digits
   * denote; either side of the point may be empty, but not both (`"1."`, `".5"`).
   */
  lemma ParsePointNumber(whole: string, frac: string)
    requires AllDigits(whole) && AllDigits(frac) && |whole| + |frac| > 0
    ensures ParseNumber(whole + "." + frac) == Some(PointValue(DigitsValue(whole), DigitsValue(frac), |frac|))
  {
    var s := whole + "." + frac;
    PointLayout(whole, frac);
    assert ParseNumber(s) == ParseUnsignedNumber(s);
    ParseUnsignedWithoutExponent(s);
    MantissaOfPoint(whole, frac);
  }

  /** `float()` of a plain run of digits is the integer they denote (`"12"`). */
  lemma ParseIntegerNumber(digits: string)
    requires |digits| > 0 && AllDigits(digits)
    ensures ParseNumber(digits) == Some(DigitsValue(digits) as real)
  {
    IntegerMantissa(digits);
    ParseUnsignedWithoutExponent(digits);
  }

  /** `float(f"{q}.{r:0{w}d}")`: a whole part and `w` decimals read back as `q + r / 10^w`. */
  lemma ParseFixedPoint(q: nat, r: nat, w: nat)
    requires r < Pow10(w)
    ensures ParseNumber(Decimal(q) + "." + Fixed(r, w)) == Some(PointValue(q, r, w))
  {
    DecimalRoundTrip(q);
    FixedValue(r, w);
    ParsePointNumber(Decimal(q), Fixed(r, w));
  }

  /** The signed exponent `sign + digits` denotes. */
  function ExponentOf(sign: string, digits: string): int
    requires AllDigits(digits)
  {
    if sign == "-" then -(DigitsValue(digits) as int) else DigitsValue(digits)
  }

  /**
   * `float(whole + "." + frac + "e" + sign + digits)`: the point value scaled by
   * ten to the signed exponent (`"0.12E+04"`), for either marker `e` or `E`.
   */
  lemma ParsePointExponent(whole: string, frac: string, marker: char, sign: string, digits: string)
    requires AllDigits(whole) && AllDigits(frac) && |whole| + |frac| > 0
    requires marker == 'e' || marker == 'E'
    requires sign == "" || sign == "+" || sign == "-"
    requires |digits| > 0 && AllDigits(digits)
    ensures ParseNumber(whole + "." + frac + [marker] + (sign + digits))
         == Some(Scale(PointValue(DigitsValue(whole), DigitsValue(frac), |frac|), ExponentOf(sign, digits)))
  {
    PointLayout(whole, frac);
    MantissaOfPoint(whole, frac);
    ExponentValue(sign, digits);
    ParseWithExponent(whole + "." + frac, marker, sign + digits,
                      PointValue(DigitsValue(whole), DigitsValue(frac), |frac|), ExponentOf(sign, digits));
  }

  /** `float(digits + "e" + sign + exponent)`: an integer scaled by ten to the signed exponent (`"1e3"`). */
  lemma ParseIntegerExponent(whole: string, marker: char, sign: string, digits: string)
    requires |whole| > 0 && AllDigits(whole)
    requires marker == 'e' || marker == 'E'
    requires sign == "" || sign == "+" || sign == "-"
    requires |digits| > 0 && AllDigits(digits)
    ensures ParseNumber(whole + [marker] + (sign + digits)) == Some(Scale(DigitsValue(whole) as real, ExponentOf(sign, digits)))
  {
    IntegerMantissa(whole);
    ExponentValue(sign, digits);
    ParseWithExponent(whole, marker, sign + digits, DigitsValue(whole) as real, ExponentOf(sign, digits));
  }

  /** Scaling up by `k` decimal places multiplies by `10^k`. */
  lemma {:induction false} ScaleUp(m: real, k: nat)
    ensures Scale(m, k) == m * Pow10(k) as real
  {
    if k > 0 {
      ScaleUp(m, k - 1);
      assert Scale(m, k) == (m * Pow10(k - 1) as real) * 10.0;
    }
  }

  /** Scaling down by `k` decimal places divides by `10^k`. */
  lemma {:induction false} ScaleDown(m: real, k: nat)
    ensures Scale(m, -(k as int)) * Pow10(k) as real == m
  {
    if k > 0 {
      ScaleDown(m, k - 1);
      var p := Pow10(k - 1) as real;
      var r := Scale(m, -((k - 1) as int));
      assert Scale(m, -(k as int)) == r / 10.0;
      assert Pow10(k) as real == 10.0 * p;
      assert (r / 10.0) * (10.0 * p) == r * p;
    }
  }

  lemma MantissaOfPoint(whole: string, frac: string)
    requires AllDigits(whole) && AllDigits(frac) && |whole| + |frac| > 0
    requires var s := whole + "." + frac;
      IndexOf(s, '.') == |whole| && s[..|whole|] == whole && s[|whole| + 1..] == frac
    ensures ParseMantissa(whole + "." + frac) == Some(PointValue(DigitsValue(whole), DigitsValue(frac), |frac|))
  {
  }

  /** A run of digits as a mantissa: no sign, no exponent marker, no point. */
  lemma IntegerMantissa(digits: string)
    requires |digits| > 0 && AllDigits(digits)
    ensures digits[0] != '-' && digits[0] != '+' && IndexOfEither(digits, 'e', 'E') == |digits|
    ensures ParseMantissa(digits) == Some(DigitsValue(digits) as real)
  {
    assert IsDigit(digits[0]);
    NoMarkerAnywhere(digits, 'e', 'E');
    var d := IndexOf(digits, '.');
    assert d == |digits|;
    assert digits[..d] == digits;
    var v := DigitsValue(digits);
    assert ParseMantissa(digits) == Some(PointValue(v, DigitsValue([]), 0));
    assert PointValue(v, 0, 0) == v as real;
  }

  /** Where the markers sit in `whole + "." + frac`. */
  lemma PointLayout(whole: string, frac: string)
    requires AllDigits(whole) && AllDigits(frac) && |whole| + |frac| > 0
    ensures var s := whole + "." + frac;
      && s[0] != '-' && s[0] != '+'
      && IndexOfEither(s, 'e', 'E') == |s|
      && IndexOf(s, '.') == |whole|
      && s[..|whole|] == whole && s[|whole| + 1..] == frac
  {
    var s := whole + "." + frac;
    assert s[0] == if |whole| > 0 then whole[0] else '.';
    NoExponentMarker(whole, frac);
    assert IndexOf(s, '.') == |whole| by {
      assert forall i :: 0 <= i < |whole| ==> s[i] == whole[i];
      IndexOfAt(s, '.', |whole|);
    }
    assert s[..|whole|] == whole && s[|whole| + 1..] == frac;
  }

  /** A sign-free mantissa without a marker, a marker, then an exponent: the mantissa scaled. */
  lemma ParseWithExponent(m: string, marker: char, exponent: string, v: real, k: int)
    requires marker == 'e' || marker == 'E'
    requires |m| > 0 && m[0] != '-' && m[0] != '+'
    requires IndexOfEither(m, 'e', 'E') == |m|
    requires ParseMantissa(m) == Some(v) && ParseExponent(exponent) == Some(k)
    ensures ParseNumber(m + [marker] + exponent) == Some(Scale(v, k))
  {
    var s := m + [marker] + exponent;
    assert forall i :: 0 <= i < |m| ==> s[i] == m[i];
    IndexOfEitherAt(s, 'e', 'E', |m|);
    assert s[..|m|] == m && s[|m| + 1..] == exponent;
  }

  /** An optional sign before exponent digits. */
  lemma ExponentValue(sign: string, digits: string)
    requires sign == "" || sign == "+" || sign == "-"
    requires |digits| > 0 && AllDigits(digits)
    ensures ParseExponent(sign + digits) == Some(ExponentOf(sign, digits))
  {
    var e := sign + digits;
    if sign == "" {
      assert e == digits;
      assert IsDigit(digits[0]);
    } else {
      assert e[1..] == digits;
    }
  }

  lemma NoExponentMarker(whole: string, frac: string)
    requires AllDigits(whole) && AllDigits(frac)
    ensures IndexOfEither(whole + "." + frac, 'e', 'E') == |whole + "." + frac|
  {
    var s := whole + "." + frac;
    forall i | 0 <= i < |s| ensures s[i] != 'e' && s[i] != 'E' {
      if i < |whole| { assert s[i] == whole[i]; }
      else if i > |whole| { assert s[i] == frac[i - |whole| - 1]; }
    }
    NoMarkerAnywhere(s, 'e', 'E');
  }

  lemma NoMarkerAnywhere(s: string, a: char, b: char)
    requires forall i :: 0 <= i < |s| ==> s[i] != a && s[i] != b
    ensures IndexOfEither(s, a, b) == |s|
  {
  }

  /** A leading minus sign negates the number that follows it, if that has no sign of its own. */
  lemma ParseNegated(u: string)
    requires |u| > 0 ==> u[0] != '-' && u[0] != '+'
    ensures ParseNumber("-" + u) == match ParseNumber(u) case Some(x) => Some(-x) case None => None
  {
    assert ("-" + u)[1..] == u;
  }

  /** A leading plus sign leaves the number that follows it, if that has no sign of its own. */
  lemma ParsePlus(u: string)
    requires |u| > 0 ==> u[0] != '-' && u[0] != '+'
    ensures ParseNumber("+" + u) == ParseNumber(u)
  {
    assert ("+" + u)[1..] == u;
  }

  /** Integers, signed or not, read with `float()`. */
  lemma ParseIntegerExamples()
    ensures ParseNumber("12") == Some(12.0)
    ensures ParseNumber("+7") == Some(7.0)
  {
    var twelve, seven := "12", "7";
    assert DigitsValue(twelve) == 12 by { assert twelve[..1] == "1"; }
    assert DigitsValue(seven) == 7;
    ParseIntegerNumber(twelve);
    ParseIntegerNumber(seven);
    assert "+7" == "+" + seven;
    ParsePlus(seven);
  }

  /** A literal with no digit before its point, read with `float()`, with and without a minus sign. */
  lemma ParseLeadingPointExamples()
    ensures ParseNumber(".5") == Some(0.5)
    ensures ParseNumber("-.5") == Some(-0.5)
  {
    ParsePointNumber("", "5");
    assert "" + "." + "5" == ".5";
    ScaleDown(5.0, 1);
    assert PointValue(0, 5, 1) == 0.5;
    ParseNegated(".5");
    assert "-" + ".5" == "-.5";
  }

  /** An integer with an exponent, read with `float()`. */
  lemma ParseIntegerExponentExample()
    ensures ParseNumber("1e3") == Some(1000.0)
  {
    var whole, sign, digits := "1", "", "3";
    assert "1e3" == whole + ['e'] + (sign + digits);
    assert DigitsValue(whole) == 1 && ExponentOf(sign, digits) == 3;
    assert Scale(1.0, 3) == 1000.0 by { ScaleUp(1.0, 3); }
    ParseIntegerExponent(whole, 'e', sign, digits);
  }

  /** The usual shape of a time record, read with `float()`. */
  lemma ParsePointExponentExample(record: string)
    requires record == "0.12E+04"
    ensures ParseNumber(record) == Some(1200.0)
  {
    var whole, frac, sign, digits := "0", "12", "+", "04";
    assert record == whole + "." + frac + ['E'] + (sign + digits);
    assert ExponentOf(sign, digits) == 4 by { assert digits[..1] == "0"; }
    assert DigitsValue(frac) == 12 by { assert frac[..1] == "1"; }
    assert DigitsValue(whole) == 0 && |frac| == 2;
    assert PointValue(0, 12, 2) == 0.12 by { ScaleDown(12.0, 2); }
    assert Scale(0.12, 4) == 1200.0 by { ScaleUp(0.12, 4); }
    ParsePointExponent(whole, frac, 'E', sign, digits);
    assert ParseNumber(record) == Some(Scale(PointValue(0, 12, 2), 4));
  }
}
