/** The ECMAScript number built-ins the CSV parser calls: `parseInt(value, 10)`
    and `parseFloat(value)`, with `NaN` as `None` and double-precision values
    replaced by exact integers and reals. */
module JsNumber {
  import opened Options
  import opened JsString

  predicate IsDigit(c: char) {
    '0' <= c <= '9'
  }

  predicate AllDigits(s: string) {
    forall k :: 0 <= k < |s| ==> IsDigit(s[k])
  }

  function DigitVal(c: char): nat
    requires IsDigit(c)
  {
    (c as int) - ('0' as int)
  }

  function DigitChar(d: nat): (c: char)
    requires d < 10
    ensures IsDigit(c) && DigitVal(c) == d
  {
    ('0' as int + d) as char
  }

  /** The maximal run of decimal digits at the front of `s`. */
  function LeadingDigits(s: string): (r: string)
    ensures |r| <= |s| && r == s[..|r|]
    ensures AllDigits(r)
    ensures |r| == |s| || !IsDigit(s[|r|])
  {
    if s != [] && IsDigit(s[0]) then
      var r := LeadingDigits(s[1..]);
      assert [s[0]] + r == s[..|r| + 1];
      [s[0]] + r
    else []
  }

  /** The value of a string of decimal digits (0 for the empty string). */
  function DigitsValue(d: string): nat
    requires AllDigits(d)
  {
    if d == [] then 0 else DigitsValue(d[..|d| - 1]) * 10 + DigitVal(d[|d| - 1])
  }

  /** Decimal rendering of a natural number, without leading zeros. */
  function ShowNat(n: nat): (s: string)
    ensures |s| >= 1 && AllDigits(s)
  {
    if n < 10 then [DigitChar(n)] else ShowNat(n / 10) + [DigitChar(n % 10)]
  }

  /** Decimal rendering of an integer, as `String(n)` for safe integers. */
  function ShowInt(n: int): (s: string)
    ensures |s| >= 1
  {
    if n < 0 then "-" + ShowNat(-n) else ShowNat(n)
  }

  /** An optional `+` or `-` at the front: whether it was `-`, and the rest. */
  function SplitSign(t: string): (bool, string) {
    if t != [] && t[0] == '-' then (true, t[1..])
    else if t != [] && t[0] == '+' then (false, t[1..])
    else (false, t)
  }

  function Signed(negative: bool, n: int): int {
    if negative then -n else n
  }

  /** What `parseInt` and `parseFloat` read after skipping white space and an
      optional sign. */
  function Unsigned(s: string): string {
    SplitSign(TrimStart(s)).1
  }

  /** `parseInt(s, 10)`: leading white space skipped, an optional sign, then
      the maximal run of decimal digits; `NaN` (here `None`) when there is none. */
  function ParseInt(s: string): Option<int> {
    var (negative, body) := SplitSign(TrimStart(s));
    var d := LeadingDigits(body);
    if d == [] then None else Some(Signed(negative, DigitsValue(d)))
  }

  function Pow10(e: nat): (p: nat)
    ensures p >= 1
  {
    if e == 0 then 1 else 10 * Pow10(e - 1)
  }

  /** 10 raised to an integer power, as an exact real. */
  function Scale(e: int): real {
    if e >= 0 then Pow10(e) as real else 1.0 / (Pow10(-e) as real)
  }

  /** The exponent of a decimal literal: `e` or `E`, an optional sign and at
      least one digit; 0 when that part is absent or incomplete (as in `"1e"`). */
  function ExponentOf(tail: string): int {
    if tail != [] && (tail[0] == 'e' || tail[0] == 'E') then
      var (negative, body) := SplitSign(tail[1..]);
      var d := LeadingDigits(body);
      if d == [] then 0 else Signed(negative, DigitsValue(d))
    else 0
  }

  /** `parseFloat(s)`: leading white space skipped, then the longest prefix
      that is a signed decimal literal (integer digits, optionally `.` and
      fraction digits, with at least one digit in all, then an optional
      exponent); `NaN` (here `None`) when there is no such prefix. The value is
      exact: no rounding to a double. */
  function ParseFloat(s: string): Option<real> {
    var (negative, body) := SplitSign(TrimStart(s));
    var intPart := LeadingDigits(body);
    var after := body[|intPart|..];
    var hasDot := after != [] && after[0] == '.';
    var fracPart := if hasDot then LeadingDigits(after[1..]) else [];
    if intPart == [] && fracPart == [] then None
    else
      var tail := if hasDot then after[1 + |fracPart|..] else after;
      var magnitude := (DigitsValue(intPart + fracPart) as real) * Scale(ExponentOf(tail) - |fracPart|);
      Some(if negative then -magnitude else magnitude)
  }

  // ---------------------------------------------------------------------------
  // Properties

  lemma {:induction false} DigitsValueShowNat(n: nat)
    ensures DigitsValue(ShowNat(n)) == n
  {
    if n >= 10 {
      var s := ShowNat(n);
      assert s[..|s| - 1] == ShowNat(n / 10);
      DigitsValueShowNat(n / 10);
    }
  }

  lemma LeadingDigitsOfDigits(d: string, rest: string)
    requires AllDigits(d)
    requires rest == [] || !IsDigit(rest[0])
    ensures LeadingDigits(d + rest) == d
  {
    var s := d + rest;
    var r := LeadingDigits(s);
    assert forall k :: 0 <= k < |d| ==> s[k] == d[k];
    assert |d| < |s| ==> s[|d|] == rest[0];
    assert |r| == |d|;
    assert r == s[..|d|] == d;
  }

  /** `parseInt` reads back the decimal rendering of any integer, whatever
      non-digit text follows it (so `parseInt("2015abc")` is 2015 and
      `parseInt("12.7")` is 12). */
  lemma ParseIntShowInt(n: int, rest: string)
    requires rest == [] || !IsDigit(rest[0])
    ensures ParseInt(ShowInt(n) + rest) == Some(n)
  {
    var s := ShowInt(n) + rest;
    var m: nat := if n < 0 then -n else n;
    var digits := ShowNat(m);
    var body := digits + rest;
    assert IsDigit(digits[0]);
    if n < 0 {
      assert s == ['-'] + body;
      assert SplitSign(s) == (true, body);
    } else {
      assert s == body;
      assert SplitSign(s) == (false, body);
    }
    assert TrimStart(s) == s by {
      assert s[0] == '-' || IsDigit(s[0]);
      assert !IsWhite(s[0]);
    }
    LeadingDigitsOfDigits(digits, rest);
    DigitsValueShowNat(m);
  }

  /** `parseInt` fails exactly when, after white space and an optional sign,
      the text does not start with a digit. */
  lemma ParseIntFails(s: string)
    ensures ParseInt(s).None? <==> (Unsigned(s) == [] || !IsDigit(Unsigned(s)[0]))
  {
    var u := Unsigned(s);
    if u != [] && IsDigit(u[0]) {
      assert LeadingDigits(u) != [];
    }
  }

  /** `parseFloat` succeeds wherever `parseInt` does; when the integer digits
      are followed by neither `.` nor an exponent marker the two agree. */
  lemma ParseFloatExtendsParseInt(s: string)
    requires ParseInt(s).Some?
    ensures ParseFloat(s).Some?
    ensures var u := Unsigned(s);
            var d := LeadingDigits(u);
            (|d| == |u| || (u[|d|] != '.' && u[|d|] != 'e' && u[|d|] != 'E'))
            ==> ParseFloat(s) == Some(ParseInt(s).value as real)
  {
    var u := Unsigned(s);
    var d := LeadingDigits(u);
    var after := u[|d|..];
    if after == [] || (after[0] != '.' && after[0] != 'e' && after[0] != 'E') {
      assert ExponentOf(after) == 0;
      assert d + [] == d;
      assert Scale(0) == 1.0;
    }
  }

  /** `parseFloat` fails exactly when, after white space and an optional sign,
      the text starts with neither a digit nor `.` followed by a digit. */
  lemma ParseFloatFails(s: string)
    ensures ParseFloat(s).None? <==>
            var u := Unsigned(s);
            (u == [] || !IsDigit(u[0])) && !(|u| >= 2 && u[0] == '.' && IsDigit(u[1]))
  {
    var u := Unsigned(s);
    if u != [] && IsDigit(u[0]) {
      assert LeadingDigits(u) != [];
    } else if |u| >= 2 && u[0] == '.' && IsDigit(u[1]) {
      assert LeadingDigits(u) == [];
      assert u[0..] == u;
      assert LeadingDigits(u[1..]) != [];
    }
  }
}
