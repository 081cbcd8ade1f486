/**
  The few JavaScript built-ins the game's core leans on, written out so that
  their exact behaviour is part of the model: the truncating remainder `%`,
  `String.prototype.trim`, `toUpperCase` on a single character, `String(n)` of
  an integer, and `null` as an `Option`.
 */
module JsRuntime {

  datatype Option<+T> = None | Some(value: T)

  /** JavaScript's `a % 12` on integers: the remainder of division truncated
      toward zero, so it takes the sign of the dividend (Dafny's own `%` is
      Euclidean and never negative). */
  function JsRem12(a: int): (r: int)
    ensures a >= 0 ==> 0 <= r < 12
    ensures a < 0 ==> -12 < r <= 0
  {
    // The first two cases are the general ones restricted to |a| < 24,
    // spelled out so that small constants evaluate without `%`.
    if -12 < a < 12 then a
    else if 12 <= a < 24 then a - 12
    else if a >= 0 then a % 12
    else -((-a) % 12)
  }

  /** The truncated remainder differs from its dividend by a multiple of 12. */
  lemma JsRem12Congruent(a: int)
    ensures (a - JsRem12(a)) % 12 == 0
  {
    if a < 0 {
      var q := (-a) / 12;
      assert -a == 12 * q + (-a) % 12;
      assert a - JsRem12(a) == -12 * q;
    }
  }

  /** The code points `trim` removes, WhiteSpace and LineTerminator of
      ECMAScript (sections 12.2 and 12.3 of ECMA-262), as ten ranges. */
  function SpaceRange(i: int): (r: (int, int))
    requires 0 <= i < 10
    ensures r.0 <= r.1
  {
    match i
    case 0 => (0x09, 0x0D) case 1 => (0x20, 0x20) case 2 => (0xA0, 0xA0)
    case 3 => (0x1680, 0x1680) case 4 => (0x2000, 0x200A) case 5 => (0x2028, 0x2029)
    case 6 => (0x202F, 0x202F) case 7 => (0x205F, 0x205F) case 8 => (0x3000, 0x3000)
    case 9 => (0xFEFF, 0xFEFF)
  }

  /** Whether code point `n` lies in one of the ranges from the `i`-th on. */
  predicate InSpaceRanges(n: int, i: nat)
    requires i < 10
    decreases 10 - i
  {
    if SpaceRange(i).0 <= n <= SpaceRange(i).1 then true
    else if i + 1 < 10 then InSpaceRanges(n, i + 1)
    else false
  }

  predicate IsJsSpace(c: char) {
    // Code points below 0xA0 are settled by the first two ranges.
    var n := c as int;
    if n < 0xA0 then 0x09 <= n <= 0x0D || n == 0x20 else InSpaceRanges(n, 2)
  }

  /** The first position at or after `i` that does not hold white space
      (`|s|` when there is none). */
  function SkipSpaceFrom(s: string, i: nat): (r: nat)
    requires i <= |s|
    ensures i <= r <= |s|
    ensures r < |s| ==> !IsJsSpace(s[r])
    decreases |s| - i
  {
    if i < |s| && IsJsSpace(s[i]) then SkipSpaceFrom(s, i + 1) else i
  }

  /** The end of `s[..j]` once its trailing white space is dropped. */
  function SkipSpaceBefore(s: string, j: nat): (r: nat)
    requires j <= |s|
    ensures r <= j
    ensures r > 0 ==> !IsJsSpace(s[r - 1])
  {
    if j > 0 && IsJsSpace(s[j - 1]) then SkipSpaceBefore(s, j - 1) else j
  }

  /** Everything `SkipSpaceFrom` passes over is white space. */
  lemma {:induction false} SkipSpaceFromSpaces(s: string, i: nat, k: int)
    requires i <= |s| && i <= k < SkipSpaceFrom(s, i)
    ensures IsJsSpace(s[k])
    decreases |s| - i
  {
    if k > i {
      SkipSpaceFromSpaces(s, i + 1, k);
    }
  }

  /** Everything `SkipSpaceBefore` passes over is white space. */
  lemma {:induction false} SkipSpaceBeforeSpaces(s: string, j: nat, k: int)
    requires j <= |s| && SkipSpaceBefore(s, j) <= k < j
    ensures IsJsSpace(s[k])
  {
    if k < j - 1 {
      SkipSpaceBeforeSpaces(s, j - 1, k);
    }
  }

  /** `String.prototype.trimStart`: the suffix of `s` after its leading white space. */
  function TrimStart(s: string): (r: string)
    ensures r == [] || !IsJsSpace(r[0])
  {
    s[SkipSpaceFrom(s, 0)..]
  }

  /** `String.prototype.trimEnd`: the prefix of `s` before its trailing white space. */
  function TrimEnd(s: string): (r: string)
    ensures r == [] || !IsJsSpace(r[|r| - 1])
  {
    s[..SkipSpaceBefore(s, |s|)]
  }

  /** `String.prototype.trim`. */
  function Trim(s: string): string {
    TrimEnd(TrimStart(s))
  }

  /** Trimming drops only white space: `Trim(s)` sits in `s` after the
      leading white space, and everything after it is white space too. */
  lemma TrimDropsSpace(s: string)
    ensures var b := SkipSpaceFrom(s, 0);
      && b + |Trim(s)| <= |s|
      && s[b..b + |Trim(s)|] == Trim(s)
      && (forall k :: 0 <= k < b ==> IsJsSpace(s[k]))
      && (forall k :: b + |Trim(s)| <= k < |s| ==> IsJsSpace(s[k]))
  {
    var b := SkipSpaceFrom(s, 0);
    var t := s[b..];
    var e := SkipSpaceBefore(t, |t|);
    assert Trim(s) == t[..e] == s[b..b + e];
    forall k | 0 <= k < b ensures IsJsSpace(s[k]) {
      SkipSpaceFromSpaces(s, 0, k);
    }
    forall k | b + e <= k < |s| ensures IsJsSpace(s[k]) {
      SkipSpaceBeforeSpaces(t, |t|, k - b);
      assert t[k - b] == s[k];
    }
  }

  /** A string that neither starts nor ends with white space is its own trim. */
  lemma TrimOfTrimmed(s: string)
    requires s != [] && !IsJsSpace(s[0]) && !IsJsSpace(s[|s| - 1])
    ensures Trim(s) == s
  {
  }

  /** Trimming is idempotent. */
  lemma TrimIdempotent(s: string)
    ensures Trim(Trim(s)) == Trim(s)
  {
    var t := Trim(s);
    if t != [] {
      assert t == TrimStart(s)[..|t|];
      TrimOfTrimmed(t);
    }
  }

  /** `toUpperCase` on one character, for the ASCII range; no character
      outside it upper-cases to an ASCII letter C, D, E, F, G, A or B. */
  function UpperChar(c: char): (r: char)
    ensures 'a' <= c <= 'z' ==> 'A' <= r <= 'Z' && r as int == c as int - 32
    ensures !('a' <= c <= 'z') ==> r == c
  {
    if 'a' <= c <= 'z' then (c as int - 32) as char else c
  }

  predicate IsDigit(c: char) {
    '0' <= c <= '9'
  }

  function DigitChar(d: int): (c: char)
    requires 0 <= d < 10
    ensures IsDigit(c) && c as int - '0' as int == d
  {
    "0123456789"[d]
  }

  /** Decimal digits of a natural number, most significant first. */
  function NatToDecimal(n: nat): (r: string)
    ensures |r| > 0
    ensures forall k :: 0 <= k < |r| ==> IsDigit(r[k])
  {
    if n < 10 then [DigitChar(n)] else NatToDecimal(n / 10) + [DigitChar(n % 10)]
  }

  /** The number a string of decimal digits denotes (the reading of
      `NatToDecimal`). */
  function DecimalValue(s: string): nat
    requires forall k :: 0 <= k < |s| ==> IsDigit(s[k])
  {
    if s == [] then 0
    else
      assert IsDigit(s[|s| - 1]);
      DecimalValue(s[..|s| - 1]) * 10 + (s[|s| - 1] as int - '0' as int)
  }

  lemma {:induction false} DecimalRoundTrip(n: nat)
    ensures DecimalValue(NatToDecimal(n)) == n
  {
    if n >= 10 {
      var s := NatToDecimal(n);
      assert s[..|s| - 1] == NatToDecimal(n / 10);
      DecimalRoundTrip(n / 10);
    }
  }

  /** `String(n)` for an integer `n`: an optional minus sign and the digits. */
  function IntToDecimal(n: int): (r: string)
    ensures |r| > 0
    ensures n < 0 <==> r[0] == '-'
    ensures forall k :: 0 < k < |r| ==> IsDigit(r[k])
    ensures n >= 0 ==> IsDigit(r[0])
  {
    if n < 0 then "-" + NatToDecimal(-n) else NatToDecimal(n)
  }

  /** Different natural numbers print differently. */
  lemma NatToDecimalInjective(m: nat, n: nat)
    requires NatToDecimal(m) == NatToDecimal(n)
    ensures m == n
  {
    DecimalRoundTrip(m);
    DecimalRoundTrip(n);
  }

  /** Different integers print differently. */
  lemma IntToDecimalInjective(m: int, n: int)
    requires IntToDecimal(m) == IntToDecimal(n)
    ensures m == n
  {
    var r := IntToDecimal(m);
    if m < 0 {
      assert n < 0;
      assert NatToDecimal(-m) == r[1..];
      assert NatToDecimal(-n) == r[1..];
      NatToDecimalInjective(-m, -n);
    } else {
      assert n >= 0;
      NatToDecimalInjective(m, n);
    }
  }

  /** `String.prototype.repeat`: `n` copies of `c`. */
  function Repeat(c: char, n: nat): (r: string)
    ensures |r| == n && forall k :: 0 <= k < n ==> r[k] == c
  {
    if n == 0 then [] else Repeat(c, n - 1) + [c]
  }

  /** Number of occurrences of `c` in `s`. */
  function Count(c: char, s: string): nat {
    if s == [] then 0
    else Count(c, s[..|s| - 1]) + (if s[|s| - 1] == c then 1 else 0)
  }

  /** A string made only of `c` holds `|s|` copies of `c` and none of any
      other character. */
  lemma {:induction false} CountUniform(c: char, d: char, s: string)
    requires forall k :: 0 <= k < |s| ==> s[k] == c
    ensures Count(c, s) == |s|
    ensures d != c ==> Count(d, s) == 0
  {
    if s != [] {
      CountUniform(c, d, s[..|s| - 1]);
    }
  }
}
