/** String primitives the core relies on, with JavaScript's meaning:
    `String.prototype.trim`, ASCII-only case-insensitive regular
    expression matching, the `\D` class, decimal `parseInt` on a string of
    digits, and the decimal rendering of a whole number in a template
    literal. */
module Text {

  /** JavaScript's WhiteSpace and LineTerminator code points, which `trim`
      removes: tab, vertical tab, form feed, space, no-break space, the
      byte-order mark, the other space separators of category Zs, and the
      four line terminators. */
  predicate IsJsSpace(c: char) {
    c == '\t' || c == '\U{000B}' || c == '\U{000C}' || c == ' ' ||
    c == '\U{00A0}' || c == '\U{FEFF}' || c == '\U{1680}' ||
    ('\U{2000}' <= c <= '\U{200A}') || c == '\U{202F}' || c == '\U{205F}' ||
    c == '\U{3000}' || IsLineTerminator(c)
  }

  /** The code points that `.` in a regular expression without the `s`
      flag does not match, and that `$` without the `m` flag ignores. */
  predicate IsLineTerminator(c: char) {
    c == '\n' || c == '\r' || c == '\U{2028}' || c == '\U{2029}'
  }

  /** `s.trimStart()` */
  function TrimStart(s: string): string {
    if s != [] && IsJsSpace(s[0]) then TrimStart(s[1..]) else s
  }

  /** `s.trimEnd()` */
  function TrimEnd(s: string): string {
    if s != [] && IsJsSpace(s[|s| - 1]) then TrimEnd(s[..|s| - 1]) else s
  }

  /** The number of white-space code points `s` starts with. */
  function LeadingSpaces(s: string): (n: nat)
    ensures n <= |s|
    ensures forall i :: 0 <= i < n ==> IsJsSpace(s[i])
    ensures n < |s| ==> !IsJsSpace(s[n])
  {
    if s != [] && IsJsSpace(s[0]) then 1 + LeadingSpaces(s[1..]) else 0
  }

  /** `s.trim()`: white space removed at both ends. */
  function Trim(s: string): string {
    TrimEnd(TrimStart(s))
  }

  /** `Trim` keeps the slice of `s` between its leading and trailing white
      space: the result neither starts nor ends with white space, and it
      is empty exactly when `s` is all white space. */
  lemma TrimSpec(s: string)
    ensures var r := Trim(s);
      && LeadingSpaces(s) + |r| <= |s| && r == s[LeadingSpaces(s)..LeadingSpaces(s) + |r|]
      && (forall i :: LeadingSpaces(s) + |r| <= i < |s| ==> IsJsSpace(s[i]))
      && (r != [] ==> !IsJsSpace(r[0]) && !IsJsSpace(r[|r| - 1]))
      && (r == [] <==> forall i :: 0 <= i < |s| ==> IsJsSpace(s[i]))
  {
    StartLeading(s);
    TrimEndSpec(TrimStart(s));
  }

  lemma {:induction false} StartLeading(s: string)
    ensures LeadingSpaces(s) <= |s| && TrimStart(s) == s[LeadingSpaces(s)..]
  {
    if s != [] && IsJsSpace(s[0]) { StartLeading(s[1..]); }
  }

  lemma {:induction false} TrimEndSpec(s: string)
    ensures var r := TrimEnd(s);
      && |r| <= |s| && r == s[..|r|]
      && (r != [] ==> !IsJsSpace(r[|r| - 1]))
      && (forall i :: |r| <= i < |s| ==> IsJsSpace(s[i]))
  {
    if s != [] && IsJsSpace(s[|s| - 1]) {
      TrimEndSpec(s[..|s| - 1]);
      assert s[..|s| - 1][..|TrimEnd(s)|] == s[..|TrimEnd(s)|];
    }
  }

  /** Trimming an already trimmed string changes nothing. */
  lemma {:induction false} TrimIdempotent(s: string)
    ensures Trim(Trim(s)) == Trim(s)
  {
    var r := Trim(s);
    TrimSpec(s);
    assert TrimStart(r) == r;
    assert TrimEnd(r) == r;
  }

  /** Lower-cases the ASCII letters only, the way a non-Unicode `i`
      regular expression compares characters. */
  function LowerAscii(c: char): (r: char)
    ensures 'A' <= c <= 'Z' ==> r as int == c as int + 32
    ensures !('A' <= c <= 'Z') ==> r == c
  {
    if 'A' <= c <= 'Z' then (c as int + 32) as char else c
  }

  /** `a` and `b` match under the `i` flag (ASCII letters fold case). */
  predicate SameIgnoringCase(a: string, b: string) {
    |a| == |b| && forall i :: 0 <= i < |a| ==> LowerAscii(a[i]) == LowerAscii(b[i])
  }

  /** `s` has `p` at position `i`, case-insensitively. */
  predicate MatchesAt(s: string, p: string, i: nat) {
    i + |p| <= |s| && SameIgnoringCase(s[i..i + |p|], p)
  }

  /** `\d` (and the complement of `\D`) without the `u` flag. */
  predicate IsDigit(c: char) {
    '0' <= c <= '9'
  }

  /** Every non-digit removed: the digits of `s`, in order. */
  function Digits(s: string): (r: string)
    ensures forall i :: 0 <= i < |r| ==> IsDigit(r[i])
  {
    if s == [] then []
    else (if IsDigit(s[0]) then [s[0]] else []) + Digits(s[1..])
  }

  /** `Digits` keeps a digit string whole and empties a digit-free one. */
  lemma {:induction false} DigitsSpec(s: string)
    ensures (forall i :: 0 <= i < |s| ==> IsDigit(s[i])) ==> Digits(s) == s
    ensures (forall i :: 0 <= i < |s| ==> !IsDigit(s[i])) ==> Digits(s) == []
  {
    if s != [] { DigitsSpec(s[1..]); }
  }

  /** Removal works piece by piece, so a mixed label keeps exactly its
      digits, in order. */
  lemma {:induction false} DigitsAppend(a: string, b: string)
    ensures Digits(a + b) == Digits(a) + Digits(b)
  {
    if a == [] {
      assert a + b == b;
    } else {
      assert (a + b)[1..] == a[1..] + b;
      DigitsAppend(a[1..], b);
    }
  }

  /** The value of a decimal digit string, as decimal `parseInt` reads it
      (leading zeros allowed); the empty string reads as 0, which is what
      the `|| 0` fallback after a failed parse gives. */
  function DecimalValue(ds: string): nat
    requires forall i :: 0 <= i < |ds| ==> IsDigit(ds[i])
  {
    if ds == [] then 0
    else 10 * DecimalValue(ds[..|ds| - 1]) + DigitValue(ds[|ds| - 1])
  }

  function DigitValue(c: char): nat
    requires IsDigit(c)
  {
    c as int - '0' as int
  }

  /** The decimal rendering of a whole number, as a template literal
      prints a non-negative integer: no sign, no leading zero. */
  function NatToDecimal(n: nat): (r: string)
    ensures r != [] && forall i :: 0 <= i < |r| ==> IsDigit(r[i])
    ensures |r| > 1 ==> r[0] != '0'
  {
    if n < 10 then [('0' as int + n) as char]
    else NatToDecimal(n / 10) + [('0' as int + n % 10) as char]
  }

  /** Reading back a rendered number gives the number. */
  lemma {:induction false} DecimalRoundTrip(n: nat)
    ensures DecimalValue(NatToDecimal(n)) == n
  {
    var r := NatToDecimal(n);
    if n >= 10 {
      DecimalRoundTrip(n / 10);
      assert r[..|r| - 1] == NatToDecimal(n / 10);
    }
  }
}
