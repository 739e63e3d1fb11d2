/** The JavaScript string operations the application relies on:
    `trim`, `toLowerCase`, `includes`, `startsWith`, `parseInt` and `Number`,
    over strings as sequences of code points. */
module Text {
  import opened Collections

  /** ECMAScript WhiteSpace and LineTerminator code points: what
      `String.prototype.trim` removes, what `\s` matches in a regular
      expression and what `parseInt` skips. */
  predicate IsWhitespace(c: char) {
    || c == '\t' || c == '\n' || c == '\U{000B}' || c == '\U{000C}' || c == '\r'
    || c == ' ' || c == '\U{00A0}' || c == '\U{1680}'
    || ('\U{2000}' <= c <= '\U{200A}')
    || c == '\U{2028}' || c == '\U{2029}' || c == '\U{202F}' || c == '\U{205F}'
    || c == '\U{3000}' || c == '\U{FEFF}'
  }

  /** The code points that `.` in a regular expression does not match. */
  predicate IsLineTerminator(c: char) {
    c == '\n' || c == '\r' || c == '\U{2028}' || c == '\U{2029}'
  }

  predicate IsBlank(s: string) {
    forall i | 0 <= i < |s| :: IsWhitespace(s[i])
  }

  /** `s` without its leading whitespace. */
  function TrimStart(s: string): (r: string)
    ensures |r| <= |s| && r == s[|s| - |r|..]
    ensures IsBlank(s[..|s| - |r|])
    ensures r != [] ==> !IsWhitespace(r[0])
    decreases |s|
  {
    if s != [] && IsWhitespace(s[0]) then TrimStart(s[1..]) else s
  }

  /** `s` without its trailing whitespace. */
  function TrimEnd(s: string): (r: string)
    ensures |r| <= |s| && r == s[..|r|]
    ensures IsBlank(s[|r|..])
    ensures r != [] ==> !IsWhitespace(r[|r| - 1])
    decreases |s|
  {
    if s != [] && IsWhitespace(s[|s| - 1]) then
      var r := TrimEnd(s[..|s| - 1]);
      assert s[|r|..] == s[..|s| - 1][|r|..] + [s[|s| - 1]];
      r
    else s
  }

  /** `String.prototype.trim`. */
  function Trim(s: string): (r: string)
    ensures r == [] || (!IsWhitespace(r[0]) && !IsWhitespace(r[|r| - 1]))
  {
    TrimEnd(TrimStart(s))
  }

  /** A string trims to the empty string exactly when every character is whitespace. */
  lemma TrimEmptyIffBlank(s: string)
    ensures Trim(s) == [] <==> IsBlank(s)
  {
    var t := TrimStart(s);
    if IsBlank(s) {
      TrimStartOfBlank(s);
    }
    if Trim(s) == [] {
      assert t[0..] == t;
      assert s[..|s| - |t|] == s;
    }
  }

  lemma {:induction false} TrimStartOfBlank(s: string)
    requires IsBlank(s)
    ensures TrimStart(s) == []
    decreases |s|
  {
    if s != [] {
      TrimStartOfBlank(s[1..]);
    }
  }

  /** ASCII upper-case letters map to lower case; every other code point is kept
      (the full Unicode case mapping of `toLowerCase` is not modelled). */
  function LowerChar(c: char): char {
    if 'A' <= c <= 'Z' then (c as int + 32) as char else c
  }

  function ToLower(s: string): (r: string)
    ensures |r| == |s|
    ensures forall i :: 0 <= i < |s| ==> r[i] == LowerChar(s[i])
  {
    seq(|s|, i requires 0 <= i < |s| => LowerChar(s[i]))
  }

  /** Lower-casing twice is lower-casing once, so a classification made on a
      lower-cased message does not depend on the case of the original. */
  lemma ToLowerIdempotent(s: string)
    ensures ToLower(ToLower(s)) == ToLower(s)
  {
  }

  /** `s.includes(t)`: `t` occurs in `s` as a contiguous substring. */
  predicate Contains(s: string, t: string) {
    exists i | 0 <= i <= |s| - |t| :: OccursAt(s, t, i)
  }

  predicate OccursAt(s: string, t: string, i: nat) {
    i + |t| <= |s| && s[i..i + |t|] == t
  }

  /** A string contains every string it is built from. */
  lemma ContainsPart(a: string, b: string, c: string)
    ensures Contains(a + b + c, b)
  {
    var s := a + b + c;
    assert OccursAt(s, b, |a|);
  }

  /** `s.startsWith(p)`. */
  predicate StartsWith(s: string, p: string) {
    |p| <= |s| && s[..|p|] == p
  }

  predicate IsDecimalDigit(c: char) {
    '0' <= c <= '9'
  }

  /** Value of `c` as a digit in base `radix` (10 or 16), if it is one. */
  function DigitValue(c: char, radix: nat): Option<nat> {
    if '0' <= c <= '9' then Some(c as int - '0' as int)
    else if radix == 16 && 'a' <= c <= 'f' then Some(c as int - 'a' as int + 10)
    else if radix == 16 && 'A' <= c <= 'F' then Some(c as int - 'A' as int + 10)
    else None
  }

  /** Length of the longest prefix of `s` made of digits of base `radix`. */
  function DigitRun(s: string, radix: nat): (n: nat)
    ensures n <= |s|
    ensures forall i :: 0 <= i < n ==> DigitValue(s[i], radix).Some?
    ensures n < |s| ==> DigitValue(s[n], radix).None?
    decreases |s|
  {
    if s != [] && DigitValue(s[0], radix).Some? then 1 + DigitRun(s[1..], radix) else 0
  }

  /** The number written by the digits `s` in base `radix`, most significant first. */
  function DigitsValue(s: string, radix: nat): nat
    requires forall i :: 0 <= i < |s| ==> DigitValue(s[i], radix).Some?
    decreases |s|
  {
    if s == [] then 0
    else DigitsValue(s[..|s| - 1], radix) * radix + DigitValue(s[|s| - 1], radix).value
  }

  /** `t` without one leading sign. */
  function Unsigned(t: string): (u: string)
    ensures |u| <= |t|
  {
    if t != [] && (t[0] == '-' || t[0] == '+') then t[1..] else t
  }

  /** `u` starts with `0x` or `0X`. */
  predicate HexPrefix(u: string) {
    |u| >= 2 && u[0] == '0' && (u[1] == 'x' || u[1] == 'X')
  }

  /** The value of the longest run of base-`radix` digits that starts `digits`,
      `None` when it does not start with a digit. */
  function ReadDigits(digits: string, radix: nat): (r: Option<nat>)
    ensures r.None? <==> DigitRun(digits, radix) == 0
  {
    var n := DigitRun(digits, radix);
    if n == 0 then None
    else
      var run := digits[..n];
      assert forall i | 0 <= i < |run| :: run[i] == digits[i];
      Some(DigitsValue(run, radix))
  }

  /** `parseInt(s)` without a radix: leading whitespace is skipped, one sign
      is accepted, a `0x`/`0X` prefix selects base 16, and then the longest run
      of digits is read; `None` stands for NaN (no digit at all). */
  function ParseInt(s: string): (r: Option<int>)
  {
    var t := TrimStart(s);
    var u := Unsigned(t);
    var read := if HexPrefix(u) then ReadDigits(u[2..], 16) else ReadDigits(u, 10);
    match read
    case None => None
    case Some(v) =>
      var value: int := if t != [] && t[0] == '-' then 0 - v else v;
      Some(value)
  }

  predicate IsDecimalDigits(s: string) {
    forall i | 0 <= i < |s| :: IsDecimalDigit(s[i])
  }

  /** `Number(s)` for the strings the forms produce: a blank string is 0, a
      string of decimal digits (surrounded by optional whitespace) is its value,
      and every other string is NaN (`None`). Signs, fractions, exponents and
      the other radix prefixes that `Number` also accepts are not modelled. */
  function NumberOf(s: string): (r: Option<int>)
    ensures IsBlank(s) ==> r == Some(0)
  {
    var t := Trim(s);
    TrimEmptyIffBlank(s);
    if t == [] then Some(0)
    else if IsDecimalDigits(t) then
      assert forall i :: 0 <= i < |t| ==> DigitValue(t[i], 10).Some?;
      Some(DigitsValue(t, 10))
    else None
  }

  /** On a plain string of decimal digits `parseInt` and `Number` agree. */
  lemma ParseIntAgreesWithNumber(s: string)
    requires s != [] && IsDecimalDigits(s)
    ensures ParseInt(s) == NumberOf(s)
    ensures ParseInt(s).Some?
  {
    ReadAllDigits(s);
    ParseIntOfDigits(s);
    NumberOfDigits(s);
  }

  lemma ParseIntOfDigits(s: string)
    requires s != [] && IsDecimalDigits(s)
    requires forall i :: 0 <= i < |s| ==> DigitValue(s[i], 10).Some?
    requires ReadDigits(s, 10) == Some(DigitsValue(s, 10))
    ensures ParseInt(s) == Some(DigitsValue(s, 10))
  {
    NothingToTrimStart(s);
    NoSignNoHex(s);
    ParseIntUnprefixed(s);
  }

  lemma NoSignNoHex(s: string)
    requires s != [] && IsDecimalDigits(s)
    ensures IsDecimalDigit(s[0]) && Unsigned(s) == s && !HexPrefix(s)
  {
    assert IsDecimalDigit(s[0]);
    assert |s| >= 2 ==> IsDecimalDigit(s[1]);
  }

  /** Without whitespace, sign or hexadecimal prefix, `parseInt` reads decimal digits. */
  lemma ParseIntUnprefixed(s: string)
    requires TrimStart(s) == s && Unsigned(s) == s && !HexPrefix(s)
    requires s != [] && IsDecimalDigit(s[0])
    ensures ReadDigits(s, 10).Some? ==> ParseInt(s) == Some(ReadDigits(s, 10).value as int)
  {
  }

  lemma NothingToTrimStart(s: string)
    requires s != [] && IsDecimalDigits(s)
    ensures TrimStart(s) == s
  {
    assert IsDecimalDigit(s[0]);
    assert !IsWhitespace(s[0]);
  }

  lemma NothingToTrimEnd(s: string)
    requires s != [] && IsDecimalDigit(s[|s| - 1])
    ensures TrimEnd(s) == s
  {
    assert !IsWhitespace(s[|s| - 1]);
  }

  lemma NumberOfDigits(s: string)
    requires s != [] && IsDecimalDigits(s)
    requires forall i :: 0 <= i < |s| ==> DigitValue(s[i], 10).Some?
    ensures NumberOf(s) == Some(DigitsValue(s, 10))
  {
    assert IsDecimalDigit(s[0]) && IsDecimalDigit(s[|s| - 1]);
    NothingToTrimStart(s);
    NothingToTrimEnd(s);
    assert Trim(s) == s;
  }

  /** A string made only of decimal digits is read whole. */
  lemma ReadAllDigits(s: string)
    requires s != [] && IsDecimalDigits(s)
    ensures forall i :: 0 <= i < |s| ==> DigitValue(s[i], 10).Some?
    ensures ReadDigits(s, 10) == Some(DigitsValue(s, 10))
  {
    assert forall i :: 0 <= i < |s| ==> DigitValue(s[i], 10).Some?;
    DigitRunAll(s, 10);
    assert s[..|s|] == s;
  }

  lemma {:induction false} DigitRunAll(s: string, radix: nat)
    requires forall i :: 0 <= i < |s| ==> DigitValue(s[i], radix).Some?
    ensures DigitRun(s, radix) == |s|
    decreases |s|
  {
    if s != [] {
      DigitRunAll(s[1..], radix);
    }
  }
}
