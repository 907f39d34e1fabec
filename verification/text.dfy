/**
 * The pieces of Python's string handling that the loader and the filter menu rely on:
 * `str.split()` with no separator, `str.isdigit()` on one character and `float()` on a token.
 * `float()` is modelled by a plain decimal parser: an optional sign, digits and at most one
 * decimal point, with at least one digit.
 */
module Text {
  import opened Wrappers

  /** `c.isspace()`: the characters Python's no-argument `split()` separates on. */
  predicate IsSpace(c: char) {
    || ('\t' <= c <= '\r')
    || ('\U{1C}' <= c <= ' ')
    || c == '\U{85}' || c == '\U{A0}' || c == '\U{1680}'
    || ('\U{2000}' <= c <= '\U{200A}')
    || c == '\U{2028}' || c == '\U{2029}' || c == '\U{202F}' || c == '\U{205F}' || c == '\U{3000}'
  }

  predicate NoSpace(s: string) {
    forall i | 0 <= i < |s| :: !IsSpace(s[i])
  }

  /** Every character of `s` is whitespace (the empty string included). */
  predicate AllSpace(s: string) {
    forall i | 0 <= i < |s| :: IsSpace(s[i])
  }

  /** `c.isdigit()`, restricted to the ASCII digits. */
  predicate IsDigit(c: char) {
    '0' <= c <= '9'
  }

  /** Some character of `s` is a digit. */
  predicate HasDigit(s: string) {
    exists i | 0 <= i < |s| :: IsDigit(s[i])
  }

  predicate AllDigits(s: string) {
    forall i | 0 <= i < |s| :: IsDigit(s[i])
  }

  // ---------------------------------------------------------------- splitting

  /** Length of the run of non-space characters at the front of `s`. */
  function TokenLength(s: string): (n: nat)
    ensures n <= |s|
    ensures NoSpace(s[..n])
    ensures n < |s| ==> IsSpace(s[n])
  {
    if s == [] || IsSpace(s[0]) then 0 else 1 + TokenLength(s[1..])
  }

  /**
   * `s.split()`: the maximal runs of non-space characters of `s`, in order; leading,
   * trailing and repeated whitespace produce no empty tokens.
   */
  function Split(s: string): (tokens: seq<string>)
    ensures forall k | 0 <= k < |tokens| :: tokens[k] != [] && NoSpace(tokens[k])
    ensures tokens == [] <==> AllSpace(s)
    decreases |s|
  {
    if s == [] then []
    else if IsSpace(s[0]) then Split(s[1..])
    else
      var n := TokenLength(s);
      [s[..n]] + Split(s[n..])
  }

  /** `" ".join(tokens)`, the partner of `Split`. */
  function Join(tokens: seq<string>): string {
    if tokens == [] then ""
    else if |tokens| == 1 then tokens[0]
    else tokens[0] + " " + Join(tokens[1..])
  }

  lemma {:induction false} TokenLengthOfJoin(t: string, rest: string)
    requires t != [] && NoSpace(t)
    requires rest == [] || IsSpace(rest[0])
    ensures TokenLength(t + rest) == |t|
    decreases |t|
  {
    if |t| > 1 {
      assert (t + rest)[1..] == t[1..] + rest;
      TokenLengthOfJoin(t[1..], rest);
    } else {
      assert (t + rest)[1..] == rest;
    }
  }

  /** Splitting a space-joined list of tokens gives the tokens back. */
  lemma {:induction false} SplitJoin(tokens: seq<string>)
    requires forall k | 0 <= k < |tokens| :: tokens[k] != [] && NoSpace(tokens[k])
    ensures Split(Join(tokens)) == tokens
  {
    if tokens == [] {
    } else if |tokens| == 1 {
      var t := tokens[0];
      TokenLengthOfJoin(t, "");
      assert t + "" == t;
      assert t[|t|..] == [];
    } else {
      var t, rest := tokens[0], Join(tokens[1..]);
      var s := t + " " + rest;
      assert s == t + (" " + rest);
      TokenLengthOfJoin(t, " " + rest);
      assert s[..|t|] == t;
      assert s[|t|..] == " " + rest;
      assert (" " + rest)[1..] == rest;
      SplitJoin(tokens[1..]);
      assert Split(s[|t|..]) == Split(rest);
    }
  }

  /** A run of whitespace splits into nothing, wherever it stands. */
  lemma {:induction false} SplitLeadingSpaces(w: string, rest: string)
    requires AllSpace(w)
    ensures Split(w + rest) == Split(rest)
    decreases |w|
  {
    if w != [] {
      assert IsSpace((w + rest)[0]);
      assert (w + rest)[1..] == w[1..] + rest;
      SplitLeadingSpaces(w[1..], rest);
    } else {
      assert w + rest == rest;
    }
  }

  /** A single token with no whitespace splits into itself. */
  lemma SplitToken(t: string)
    requires t != [] && NoSpace(t)
    ensures Split(t) == [t]
  {
    TokenLengthOfJoin(t, "");
    assert t + "" == t;
    assert t[|t|..] == [];
  }

  lemma {:induction false} TokenLengthBeforeSpace(a: string, c: char, b: string)
    requires IsSpace(c)
    ensures TokenLength(a + [c] + b) == TokenLength(a)
    decreases |a|
  {
    if a == [] {
      assert (a + [c] + b)[0] == c;
    } else if !IsSpace(a[0]) {
      assert (a + [c] + b)[0] == a[0];
      assert (a + [c] + b)[1..] == a[1..] + [c] + b;
      TokenLengthBeforeSpace(a[1..], c, b);
    } else {
      assert (a + [c] + b)[0] == a[0];
    }
  }

  /** A whitespace character cuts a string into two parts that split independently. */
  lemma {:induction false} SplitAtSpace(a: string, c: char, b: string)
    requires IsSpace(c)
    ensures Split(a + [c] + b) == Split(a) + Split(b)
    decreases |a|
  {
    var s := a + [c] + b;
    if a == [] {
      assert s[0] == c && s[1..] == b;
    } else if IsSpace(a[0]) {
      assert s[0] == a[0] && s[1..] == a[1..] + [c] + b;
      SplitAtSpace(a[1..], c, b);
    } else {
      assert s[0] == a[0];
      var n := TokenLength(a);
      TokenLengthBeforeSpace(a, c, b);
      assert s[..n] == a[..n];
      assert s[n..] == a[n..] + [c] + b;
      SplitAtSpace(a[n..], c, b);
    }
  }

  /** A non-empty run of whitespace between two strings, as `split()` reads it. */
  lemma SplitAtSpaces(a: string, w: string, b: string)
    requires w != [] && AllSpace(w)
    ensures Split(a + w + b) == Split(a) + Split(b)
  {
    assert a + w + b == a + [w[0]] + (w[1..] + b);
    SplitAtSpace(a, w[0], w[1..] + b);
    SplitLeadingSpaces(w[1..], b);
  }

  /** A line without digits splits into tokens without digits. */
  lemma {:induction false} SplitKeepsNoDigit(s: string)
    requires !HasDigit(s)
    ensures forall k | 0 <= k < |Split(s)| :: !HasDigit(Split(s)[k])
    decreases |s|
  {
    if s == [] {
    } else if IsSpace(s[0]) {
      SplitKeepsNoDigit(s[1..]);
    } else {
      var n := TokenLength(s);
      assert forall i | 0 <= i < |s[n..]| :: s[n..][i] == s[n + i];
      SplitKeepsNoDigit(s[n..]);
      assert forall i | 0 <= i < n :: s[..n][i] == s[i];
    }
  }

  // ---------------------------------------------------------------- numbers

  function DigitValue(c: char): (d: nat)
    requires IsDigit(c)
    ensures d < 10
  {
    c as int - '0' as int
  }

  /** The value of a string of decimal digits, most significant first. */
  function DigitsValue(s: string): nat
    requires AllDigits(s)
    decreases |s|
  {
    if s == [] then 0 else 10 * DigitsValue(s[..|s| - 1]) + DigitValue(s[|s| - 1])
  }

  function Pow10(n: nat): (p: nat)
    ensures p >= 1
  {
    if n == 0 then 1 else 10 * Pow10(n - 1)
  }

  /** Index of the first decimal point in `s`, or `|s|` when there is none. */
  function PointIndex(s: string): (i: nat)
    ensures i <= |s|
    ensures i < |s| ==> s[i] == '.'
    ensures forall j | 0 <= j < i :: s[j] != '.'
  {
    if s == [] || s[0] == '.' then 0 else 1 + PointIndex(s[1..])
  }

  lemma RatioNonNegative(a: nat, b: nat)
    requires b >= 1
    ensures a as real / b as real >= 0.0
  {
  }

  /** An unsigned decimal: digits, optionally one point and more digits, at least one digit in all. */
  function ParseUnsigned(s: string): (r: Option<real>)
    ensures r.Some? ==> r.value >= 0.0 && HasDigit(s)
  {
    var p := PointIndex(s);
    var whole := s[..p];
    var fraction := if p < |s| then s[p + 1..] else "";
    if AllDigits(whole) && AllDigits(fraction) && |whole| + |fraction| > 0 then
      assert |whole| > 0 ==> IsDigit(s[0]);
      assert |whole| == 0 ==> IsDigit(s[p + 1]);
      RatioNonNegative(DigitsValue(fraction), Pow10(|fraction|));
      Some(DigitsValue(whole) as real + DigitsValue(fraction) as real / Pow10(|fraction|) as real)
    else
      None
  }

  lemma DigitInTail(s: string)
    requires |s| > 0 && HasDigit(s[1..])
    ensures HasDigit(s)
  {
    var i :| 0 <= i < |s[1..]| && IsDigit(s[1..][i]);
    assert s[i + 1] == s[1..][i];
  }

  /**
   * `float(token)` for decimal tokens: an optional `+` or `-`, then an unsigned decimal.
   * Whatever it accepts contains a digit, and only a leading `-` gives a negative value.
   */
  function ParseReal(s: string): (r: Option<real>)
    ensures r.Some? ==> HasDigit(s)
    ensures r.Some? && r.value < 0.0 ==> s[0] == '-'
  {
    if |s| > 0 && (s[0] == '+' || s[0] == '-') then
      match ParseUnsigned(s[1..])
      case None => None
      case Some(m) =>
        DigitInTail(s);
        Some(if s[0] == '-' then -m else m)
    else
      ParseUnsigned(s)
  }

  /** What the unsigned parser accepts is digits and at most one point: no whitespace. */
  lemma UnsignedHasNoSpace(s: string)
    requires ParseUnsigned(s).Some?
    ensures NoSpace(s)
  {
    var p := PointIndex(s);
    var fraction := if p < |s| then s[p + 1..] else "";
    forall i | 0 <= i < |s|
      ensures !IsSpace(s[i])
    {
      if i < p {
        assert s[i] == s[..p][i];
      } else if i > p {
        assert s[i] == fraction[i - p - 1];
      }
    }
  }

  /** A token `ParseReal` accepts contains no whitespace, so it is a token `Split` keeps whole. */
  lemma ParsedHasNoSpace(s: string)
    requires ParseReal(s).Some?
    ensures NoSpace(s)
  {
    if |s| > 0 && (s[0] == '+' || s[0] == '-') {
      UnsignedHasNoSpace(s[1..]);
      assert forall i | 1 <= i < |s| :: s[i] == s[1..][i - 1];
    } else {
      UnsignedHasNoSpace(s);
    }
  }

  /** Decimal rendering of a natural number, the partner of `ParseReal`. */
  function Decimal(n: nat): (s: string)
    ensures s != [] && AllDigits(s)
  {
    var d := ['0' + ((n % 10) as char)];
    if n < 10 then d else Decimal(n / 10) + d
  }

  lemma {:induction false} DecimalValue(n: nat)
    ensures DigitsValue(Decimal(n)) == n
  {
    var s := Decimal(n);
    if n >= 10 {
      DecimalValue(n / 10);
      assert s[..|s| - 1] == Decimal(n / 10);
    }
  }

  lemma {:induction false} NoPointInDigits(s: string)
    requires AllDigits(s)
    ensures PointIndex(s) == |s|
    decreases |s|
  {
    if s != [] {
      NoPointInDigits(s[1..]);
    }
  }

  /** A non-empty run of digits parses as the number it spells. */
  lemma ParseDigits(s: string)
    requires s != [] && AllDigits(s)
    ensures ParseUnsigned(s) == Some(DigitsValue(s) as real)
    ensures ParseReal(s) == Some(DigitsValue(s) as real)
  {
    NoPointInDigits(s);
    assert s[..|s|] == s;
    assert AllDigits("") && |s| > 0;
    assert s[0] != '+' && s[0] != '-';
  }

  /** Parsing the decimal rendering of a natural number gives that number back. */
  lemma ParseDecimal(n: nat)
    ensures ParseReal(Decimal(n)) == Some(n as real)
  {
    DecimalValue(n);
    ParseDigits(Decimal(n));
  }

  /** A leading minus sign negates: `-n` written out parses as the negative of `n`. */
  lemma ParseNegated(n: nat)
    ensures ParseReal("-" + Decimal(n)) == Some(-(n as real))
  {
    var s := "-" + Decimal(n);
    assert s[1..] == Decimal(n);
    DecimalValue(n);
    ParseDigits(Decimal(n));
  }
}
