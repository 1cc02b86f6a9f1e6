/**
 * The PHP built-ins the plugin leans on, written out on strings (sequences of
 * characters): string truthiness, ASCII case mapping, `str_contains`,
 * byte-wise string comparison, `ctype_digit`, `is_numeric`, `intval`, the
 * decimal rendering of an integer, and `ltrim` with a character list.
 */
module Php {
  import opened Wrappers

  /** A string is falsy in PHP (`empty($s)`, `! $s`, `$s ? … : …`) exactly when it is "" or "0". */
  predicate Truthy(s: string) {
    s != "" && s != "0"
  }

  predicate IsDigit(c: char) {
    '0' <= c <= '9'
  }

  /** `ctype_digit`: a non-empty string of decimal digits only. */
  predicate CtypeDigit(s: string) {
    |s| > 0 && forall i :: 0 <= i < |s| ==> IsDigit(s[i])
  }

  function LowerChar(c: char): char {
    if 'A' <= c <= 'Z' then (c as int + 32) as char else c
  }

  function UpperChar(c: char): char {
    if 'a' <= c <= 'z' then (c as int - 32) as char else c
  }

  /** `strtolower`, which maps ASCII letters only (PHP 8.2 and later). */
  function StrToLower(s: string): string {
    seq(|s|, i requires 0 <= i < |s| => LowerChar(s[i]))
  }

  /** `strtoupper`, ASCII letters only. */
  function StrToUpper(s: string): string {
    seq(|s|, i requires 0 <= i < |s| => UpperChar(s[i]))
  }

  /** Lower-casing twice is lower-casing once. */
  lemma StrToLowerIdempotent(s: string)
    ensures StrToLower(StrToLower(s)) == StrToLower(s)
  {
    var l := StrToLower(s);
    forall i | 0 <= i < |s| ensures StrToLower(l)[i] == l[i] {
      assert LowerChar(LowerChar(s[i])) == LowerChar(s[i]);
    }
  }

  /** `str_contains($hay, $needle)`: `needle` occurs at some position of `hay`. */
  predicate StrContains(hay: string, needle: string)
    decreases |hay|
  {
    needle <= hay || (|hay| > 0 && StrContains(hay[1..], needle))
  }

  /**
   * `$a < $b` on two strings that are not both numeric: byte-wise comparison,
   * where a proper prefix is smaller. On characters this is code-point order,
   * which UTF-8 preserves.
   */
  predicate StrLess(a: string, b: string)
    decreases |a|
  {
    if |a| == 0 then |b| > 0
    else if |b| == 0 then false
    else if a[0] != b[0] then a[0] < b[0]
    else StrLess(a[1..], b[1..])
  }

  predicate StrLessEq(a: string, b: string) {
    a == b || StrLess(a, b)
  }

  lemma {:induction false} StrLessIrreflexive(a: string)
    ensures !StrLess(a, a)
  {
    if |a| > 0 {
      StrLessIrreflexive(a[1..]);
    }
  }

  lemma {:induction false} StrLessTransitive(a: string, b: string, c: string)
    requires StrLess(a, b) && StrLess(b, c)
    ensures StrLess(a, c)
    decreases |a|
  {
    if |a| > 0 && a[0] == b[0] && b[0] == c[0] {
      StrLessTransitive(a[1..], b[1..], c[1..]);
    }
  }

  lemma {:induction false} StrLessTotal(a: string, b: string)
    requires a != b
    ensures StrLess(a, b) || StrLess(b, a)
    decreases |a|
  {
    if |a| > 0 && |b| > 0 && a[0] == b[0] {
      assert a == [a[0]] + a[1..] && b == [b[0]] + b[1..];
      assert a[1..] != b[1..];
      StrLessTotal(a[1..], b[1..]);
    }
  }

  lemma StrLessAsymmetric(a: string, b: string)
    requires StrLess(a, b)
    ensures !StrLess(b, a)
  {
    if StrLess(b, a) {
      StrLessTransitive(a, b, a);
      StrLessIrreflexive(a);
    }
  }

  lemma StrLessEqTransitive(a: string, b: string, c: string)
    requires StrLessEq(a, b) && StrLessEq(b, c)
    ensures StrLessEq(a, c)
  {
    if a != b && b != c {
      StrLessTransitive(a, b, c);
    }
  }

  /** Strings that agree before position `i` and differ at it compare as their characters at `i`. */
  lemma {:induction false} StrLessAt(a: string, b: string, i: nat)
    requires i < |a| && i < |b| && (forall j :: 0 <= j < i ==> a[j] == b[j]) && a[i] != b[i]
    ensures StrLess(a, b) == (a[i] < b[i])
    decreases i
  {
    if i > 0 {
      assert a[0] == b[0];
      StrLessAt(a[1..], b[1..], i - 1);
    }
  }

  // ── Decimal numbers ─────────────────────────────────────────────────────────

  function DigitChar(d: nat): char
    requires d < 10
  {
    ('0' as int + d) as char
  }

  function DigitValue(c: char): nat
    requires IsDigit(c)
  {
    c as int - '0' as int
  }

  /** The decimal rendering of a natural number, without leading zeros. */
  function NatToString(n: nat): (r: string)
    ensures |r| > 0 && CtypeDigit(r)
    ensures n > 0 ==> r[0] != '0'
    decreases n
  {
    if n < 10 then [DigitChar(n)] else NatToString(n / 10) + [DigitChar(n % 10)]
  }

  /** Canonical decimal text: an optional `-`, then digits with no leading zero, except "0" itself; no `+`. */
  predicate CanonicalDecimal(s: string) {
    var ds := if |s| > 0 && s[0] == '-' then s[1..] else s;
    CtypeDigit(ds) && (ds[0] == '0' ==> s == "0")
  }

  /** PHP's string conversion of an integer, as in `'"' . $id . '"'` or `$a . '_' . $b`. */
  function IntToString(n: int): (r: string)
    ensures |r| > 0
    ensures forall i :: 0 <= i < |r| ==> IsDigit(r[i]) || (i == 0 && r[i] == '-')
  {
    if n < 0 then "-" + NatToString(-n) else NatToString(n)
  }

  /** The value of a string of decimal digits (the empty string counts as 0). */
  function DecimalValue(ds: string): nat
    requires forall i :: 0 <= i < |ds| ==> IsDigit(ds[i])
    decreases |ds|
  {
    if ds == [] then 0 else DecimalValue(ds[..|ds| - 1]) * 10 + DigitValue(ds[|ds| - 1])
  }

  /** The whitespace that `intval` and `is_numeric` skip: space, \t, \n, \r, \v, \f. */
  predicate IsWhitespace(c: char) {
    c == ' ' || c == '\t' || c == '\n' || c == '\r' || c == '\U{0B}' || c == '\U{0C}'
  }

  function TrimLeadingWhitespace(s: string): (r: string)
    ensures |r| <= |s| && r == s[|s| - |r|..]
    ensures |r| > 0 ==> !IsWhitespace(r[0])
    decreases |s|
  {
    if |s| > 0 && IsWhitespace(s[0]) then TrimLeadingWhitespace(s[1..]) else s
  }

  /** The 64-bit bounds of a PHP integer, `PHP_INT_MAX` and `PHP_INT_MIN`. */
  const LongMax: nat := 0x7FFF_FFFF_FFFF_FFFF
  const LongMin: int := -0x8000_0000_0000_0000

  /**
   * The least magnitude `strtod` rounds to infinity: 2^1024 - 2^970, halfway
   * between the largest double and 2^1024.
   */
  const DoubleOverflow: nat := 179769313486231580793728971405303415079934132710037826936173778980444968292764750946649017977587207096330286416692887910946555547851940402630657488671505820681908902000708383676273854845817711531764475730270069855571366959622842914819860834936475292719074168444365510704342711559699508093042880177904174497792

  /** `m * 10^k`. */
  function Shift(m: nat, k: nat): nat {
    if k == 0 then m else 10 * Shift(m, k - 1)
  }

  /** `m / 10^k`, rounded down: the last `k` decimal digits dropped. */
  function Unshift(m: nat, k: nat): nat {
    if k == 0 then m else Unshift(m / 10, k - 1)
  }

  /** A decimal number as read from a string: `mantissa * 10^scale`, negated when `negative`. */
  datatype Numeral = Numeral(negative: bool, mantissa: nat, scale: int)

  /** The exponent at `t[k..]`: `e` or `E`, an optional sign, then at least one digit; 0 when there is none. */
  function Exponent(t: string, k: nat): int
    requires k <= |t|
  {
    if k < |t| && (t[k] == 'e' || t[k] == 'E') then
      var m := if k + 1 < |t| && (t[k + 1] == '+' || t[k + 1] == '-') then k + 2 else k + 1;
      var n := SkipDigits(t, m);
      if n == m then 0
      else if m == k + 2 && t[k + 1] == '-' then 0 - DecimalValue(t[m..n])
      else DecimalValue(t[m..n])
    else 0
  }

  /**
   * The number at the start of `t` in PHP's numeric-string syntax, as
   * `is_numeric_string` and `strtod` read it: an optional sign, digits with an
   * optional decimal point (at least one digit in all), then an exponent when
   * one follows. Anything after it is ignored; no digits give none.
   */
  function NumericPrefix(t: string): Option<Numeral> {
    var i := if |t| > 0 && (t[0] == '+' || t[0] == '-') then 1 else 0;
    var j := SkipDigits(t, i);
    var k := if j < |t| && t[j] == '.' then SkipDigits(t, j + 1) else j;
    var frac := if k > j then k - j - 1 else 0;
    if (j - i) + frac == 0 then None
    else
      var whole := DecimalValue(t[i..j]);
      var fraction := if k > j then DecimalValue(t[j + 1..k]) else 0;
      Some(Numeral(i == 1 && t[0] == '-', Shift(whole, frac) + fraction, Exponent(t, k) - frac))
  }

  /** The magnitude of `n` rounded toward zero. */
  function Magnitude(n: Numeral): nat {
    if n.scale >= 0 then Shift(n.mantissa, n.scale) else Unshift(n.mantissa, -n.scale)
  }

  /** `strtod` gives an infinite double for `n`. */
  predicate Overflows(n: Numeral) {
    if n.scale >= 0 then Shift(n.mantissa, n.scale) >= DoubleOverflow
    else n.mantissa >= Shift(DoubleOverflow, -n.scale)
  }

  /**
   * `intval($s)` and `(int) $s` on a string (PHP 8): leading whitespace is
   * skipped and the numeric prefix read; its value is truncated toward zero and
   * capped at `PHP_INT_MAX`/`PHP_INT_MIN`, an infinite value gives 0, and a
   * string without a numeric prefix gives 0.
   */
  function IntVal(s: string): (r: int)
    ensures LongMin <= r <= LongMax
  {
    match NumericPrefix(TrimLeadingWhitespace(s))
    case None => 0
    case Some(n) =>
      if Overflows(n) then 0
      else if n.negative then (if Magnitude(n) > -LongMin then LongMin else 0 - Magnitude(n))
      else if Magnitude(n) > LongMax then LongMax
      else Magnitude(n)
  }

  lemma {:induction false} DecimalValueOfNatToString(n: nat)
    ensures DecimalValue(NatToString(n)) == n
    decreases n
  {
    if n >= 10 {
      var s := NatToString(n);
      DecimalValueOfNatToString(n / 10);
      assert s[..|s| - 1] == NatToString(n / 10);
    }
  }

  /** Reading back the decimal rendering of a PHP integer gives the integer. */
  lemma IntValOfIntToString(n: int)
    requires LongMin <= n <= LongMax
    ensures IntVal(IntToString(n)) == n
  {
    var m: nat := if n < 0 then -n else n;
    var s, ds := IntToString(n), NatToString(m);
    DecimalValueOfNatToString(m);
    var i := if n < 0 then 1 else 0;
    assert s[i..] == ds;
    assert !IsWhitespace(s[0]);
    assert TrimLeadingWhitespace(s) == s;
    SkipDigitsOfDigits(s, i);
    assert s[i..|s|] == ds;
    assert Exponent(s, |s|) == 0;
    assert NumericPrefix(s) == Some(Numeral(n < 0, m, 0));
  }

  /** A digit, `e` and a digit run read as that digit times ten to the run's value. */
  lemma DigitExponent(c: char, ds: string)
    requires IsDigit(c) && CtypeDigit(ds)
    ensures NumericPrefix([c] + "e" + ds) == Some(Numeral(false, DigitValue(c), DecimalValue(ds)))
  {
    var t := [c] + "e" + ds;
    assert t[1] == 'e' && t[2..] == ds;
    assert SkipDigits(t, 1) == 1;
    assert SkipDigits(t, 0) == 1;
    SkipDigitsOfDigits(t, 2);
    assert t[2..|t|] == ds;
    assert Exponent(t, 1) == DecimalValue(ds);
    assert t[0..1] == [c];
    assert DecimalValue([c]) == DigitValue(c) by {
      assert [c][..0] == [];
    }
  }

  lemma ExponentPrefix()
    ensures NumericPrefix("1e3") == Some(Numeral(false, 1, 3))
  {
    assert DecimalValue("3") == 3 by {
      assert "3"[..0] == "";
    }
    DigitExponent('1', "3");
    assert "1e3" == ['1'] + "e" + "3";
  }

  /** An exponent is honoured: `intval("1e3")` is 1000. */
  lemma IntValExponent()
    ensures IntVal("1e3") == 1000
  {
    ExponentPrefix();
    assert TrimLeadingWhitespace("1e3") == "1e3";
  }

  lemma SingleDigits()
    ensures DecimalValue("7") == 7 && DecimalValue("9") == 9
  {
    assert "7"[..0] == "" && "9"[..0] == "";
  }

  lemma FractionPrefix()
    ensures NumericPrefix("-7.9px") == Some(Numeral(true, 79, -1))
  {
    var t := "-7.9px";
    assert SkipDigits(t, 1) == 2;
    assert SkipDigits(t, 3) == 4;
    assert Exponent(t, 4) == 0;
    assert t[1..2] == "7" && t[3..4] == "9";
    SingleDigits();
  }

  /** A fraction is truncated toward zero, leading whitespace skipped and trailing text ignored. */
  lemma IntValFraction()
    ensures IntVal(" -7.9px") == -7
  {
    FractionTrim();
    FractionPrefix();
    FractionMagnitude();
  }

  lemma FractionTrim()
    ensures TrimLeadingWhitespace(" -7.9px") == "-7.9px"
  {
    assert " -7.9px"[1..] == "-7.9px";
  }

  lemma FractionMagnitude()
    ensures Magnitude(Numeral(true, 79, -1)) == 7
  {
    assert Unshift(79, 1) == 7;
  }

  /** A string with no numeric prefix reads as 0. */
  lemma IntValNoNumber()
    ensures IntVal("px7") == 0
  {
    assert TrimLeadingWhitespace("px7") == "px7";
    assert SkipDigits("px7", 0) == 0;
  }

  lemma CappedPrefix()
    ensures NumericPrefix("1e19") == Some(Numeral(false, 1, 19))
  {
    assert DecimalValue("19") == 19 by {
      assert "19"[..1] == "1" && "1"[..0] == "";
    }
    DigitExponent('1', "19");
    assert "1e19" == ['1'] + "e" + "19";
  }

  lemma TenToNineteen()
    ensures Shift(1, 19) == 10000000000000000000
  {
    assert Shift(1, 10) == 10000000000;
  }

  /** A value beyond `PHP_INT_MAX` is capped at it: `intval("1e19")` is 9223372036854775807. */
  lemma IntValCapped()
    ensures IntVal("1e19") == LongMax
  {
    CappedPrefix();
    TenToNineteen();
    assert TrimLeadingWhitespace("1e19") == "1e19";
  }

  /** The rendering of an integer is canonical decimal text. */
  lemma IntToStringCanonical(n: int)
    ensures CanonicalDecimal(IntToString(n))
  {
    if n < 0 {
      assert IntToString(n)[1..] == NatToString(-n);
    }
  }

  /** Different integers render differently. */
  lemma IntToStringInjective(a: int, b: int)
    requires IntToString(a) == IntToString(b)
    ensures a == b
  {
    var ma: nat := if a < 0 then -a else a;
    var mb: nat := if b < 0 then -b else b;
    DecimalValueOfNatToString(ma);
    DecimalValueOfNatToString(mb);
    assert IsDigit(NatToString(ma)[0]) && IsDigit(NatToString(mb)[0]);
    if a < 0 {
      assert IntToString(a)[1..] == NatToString(ma);
    }
    if b < 0 {
      assert IntToString(b)[1..] == NatToString(mb);
    }
  }

  /** The index of the first character at or after `i` that is not a digit. */
  function SkipDigits(s: string, i: nat): (j: nat)
    requires i <= |s|
    ensures i <= j <= |s|
    ensures forall k :: i <= k < j ==> IsDigit(s[k])
    ensures j < |s| ==> !IsDigit(s[j])
    decreases |s| - i
  {
    if i < |s| && IsDigit(s[i]) then SkipDigits(s, i + 1) else i
  }

  /**
   * A number in PHP's numeric-string syntax with no surrounding whitespace:
   * an optional sign, digits with an optional decimal point (at least one digit
   * in all), and an optional exponent `e`/`E`, sign, digits.
   */
  predicate NumberLiteral(t: string) {
    var i := if |t| > 0 && (t[0] == '+' || t[0] == '-') then 1 else 0;
    var j := SkipDigits(t, i);
    var k := if j < |t| && t[j] == '.' then SkipDigits(t, j + 1) else j;
    var digits := (j - i) + (if k > j then k - j - 1 else 0);
    && digits > 0
    && (k == |t|
        || (&& (t[k] == 'e' || t[k] == 'E')
            && var m := if k + 1 < |t| && (t[k + 1] == '+' || t[k + 1] == '-') then k + 2 else k + 1;
               m <= |t| && SkipDigits(t, m) > m && SkipDigits(t, m) == |t|))
  }

  /**
   * `is_numeric` on a string (PHP 8): a number literal with optional leading
   * and trailing whitespace.
   */
  predicate IsNumeric(s: string) {
    exists a, b :: 0 <= a <= b <= |s|
      && (forall k :: 0 <= k < a ==> IsWhitespace(s[k]))
      && (forall k :: b <= k < |s| ==> IsWhitespace(s[k]))
      && NumberLiteral(s[a..b])
  }

  /** Every `ctype_digit` string is numeric; the converse fails (see the admin date column). */
  lemma DigitsAreNumeric(s: string)
    requires CtypeDigit(s)
    ensures IsNumeric(s)
  {
    assert s[0..|s|] == s;
    assert SkipDigits(s, 0) == |s| by {
      SkipDigitsOfDigits(s, 0);
    }
  }

  lemma {:induction false} SkipDigitsOfDigits(s: string, i: nat)
    requires i <= |s|
    requires forall k :: i <= k < |s| ==> IsDigit(s[k])
    ensures SkipDigits(s, i) == |s|
    decreases |s| - i
  {
    if i < |s| {
      SkipDigitsOfDigits(s, i + 1);
    }
  }

  /** `ltrim($s, $chars)`: drop every leading character that belongs to `chars`. */
  function LTrim(s: string, chars: set<char>): (r: string)
    ensures |r| <= |s| && r == s[|s| - |r|..]
    ensures forall k :: 0 <= k < |s| - |r| ==> s[k] in chars
    ensures |r| > 0 ==> r[0] !in chars
    decreases |s|
  {
    if |s| > 0 && s[0] in chars then LTrim(s[1..], chars) else s
  }

  /** The characters after the last `c` in `s` (all of `s` when it has none). */
  function AfterLast(s: string, c: char): (r: string)
    ensures |r| <= |s| && r == s[|s| - |r|..]
    ensures c !in r
    ensures |r| < |s| ==> s[|s| - |r| - 1] == c
    decreases |s|
  {
    if s == [] || s[|s| - 1] == c then []
    else
      var front := s[..|s| - 1];
      var f := AfterLast(front, c);
      SuffixSnoc(s, |f|);
      f + [s[|s| - 1]]
  }

  /** A suffix of `s` is a suffix of its front followed by its last element. */
  lemma SuffixSnoc(s: string, n: nat)
    requires n < |s|
    ensures s[..|s| - 1][|s| - 1 - n..] + [s[|s| - 1]] == s[|s| - n - 1..]
  {
  }

  /** When `t` holds no `c`, the `c` before it is the last one. */
  lemma {:induction false} AfterLastOf(d: string, c: char, t: string)
    requires c !in t
    ensures AfterLast(d + [c] + t, c) == t
    decreases |t|
  {
    var s := d + [c] + t;
    if t != [] {
      var front := t[..|t| - 1];
      assert s[..|s| - 1] == d + [c] + front;
      assert s[|s| - 1] == t[|t| - 1];
      AfterLastOf(d, c, front);
      assert t == front + [t[|t| - 1]];
    }
  }

  /** `substr($s, 0, $n)`: the first `n` characters, or all of `s` when it is shorter. */
  function Prefix(s: string, n: nat): (r: string)
    ensures |r| == (if |s| < n then |s| else n)
    ensures r <= s
  {
    if |s| < n then s else s[..n]
  }

  /** The decimal rendering of an integer is a numeric string. */
  lemma IntToStringIsNumeric(n: int)
    ensures IsNumeric(IntToString(n))
  {
    var s := IntToString(n);
    var i := if s[0] == '-' then 1 else 0;
    SkipDigitsOfDigits(s, i);
    assert s[0..|s|] == s;
    assert NumberLiteral(s[0..|s|]);
  }
}
