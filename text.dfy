/** Kotlin string operations the modelled code relies on, written over
    `seq<char>`: whitespace and blankness, marker search, substrings around a
    delimiter, trimming, line splitting, joining, and integer parsing and
    printing. */
module Text {
  import opened Wrappers

  /** Kotlin's `Char.isWhitespace()`: Java whitespace or a Unicode space
      separator (category Zs, including the no-break spaces), plus the line
      and paragraph separators. */
  predicate IsWhitespace(c: char)
  {
    || ('\U{9}' <= c <= '\U{D}')
    || ('\U{1C}' <= c <= ' ')
    || c == '\U{A0}' || c == '\U{1680}'
    || ('\U{2000}' <= c <= '\U{200A}')
    || c == '\U{2028}' || c == '\U{2029}' || c == '\U{202F}' || c == '\U{205F}' || c == '\U{3000}'
  }

  /** `isBlank()`: empty or whitespace only. */
  predicate IsBlank(s: string)
  {
    forall i | 0 <= i < |s| :: IsWhitespace(s[i])
  }

  predicate StartsWith(s: string, prefix: string)
  {
    |prefix| <= |s| && s[..|prefix|] == prefix
  }

  predicate OccursAt(s: string, pat: string, i: int)
  {
    0 <= i && i + |pat| <= |s| && s[i..i + |pat|] == pat
  }

  /** First index at or after `from` where `pat` occurs in `s`. */
  function IndexFrom(s: string, pat: string, from: nat): (r: Option<nat>)
    requires from <= |s|
    ensures r.Some? ==> from <= r.value && OccursAt(s, pat, r.value)
    ensures r.Some? ==> forall j | from <= j < r.value :: !OccursAt(s, pat, j)
    ensures r.None? ==> forall j | from <= j :: !OccursAt(s, pat, j)
    decreases |s| - from
  {
    if OccursAt(s, pat, from) then Some(from)
    else if from + |pat| >= |s| then None
    else IndexFrom(s, pat, from + 1)
  }

  /** `indexOf(pat)`: the first occurrence of `pat`, if any. */
  function IndexOf(s: string, pat: string): (r: Option<nat>)
    ensures r.Some? ==> OccursAt(s, pat, r.value) && forall j | 0 <= j < r.value :: !OccursAt(s, pat, j)
    ensures r.None? ==> forall j :: !OccursAt(s, pat, j)
  {
    IndexFrom(s, pat, 0)
  }

  /** `contains(pat)`. */
  predicate Contains(s: string, pat: string)
  {
    IndexOf(s, pat).Some?
  }

  lemma ContainsIff(s: string, pat: string)
    ensures Contains(s, pat) <==> exists j :: OccursAt(s, pat, j)
  {
  }

  /** `substringBefore(d)`: the text before the first `d`, or all of `s`. */
  function SubstringBefore(s: string, d: string): (r: string)
    ensures Contains(s, d) ==> |r| <= |s| && s == r + s[|r|..] && OccursAt(s, d, |r|)
    ensures !Contains(s, d) ==> r == s
  {
    match IndexOf(s, d)
    case Some(i) => s[..i]
    case None => s
  }

  /** `substringAfter(d)`: the text after the first `d`, or all of `s`. */
  function SubstringAfter(s: string, d: string): (r: string)
    ensures Contains(s, d) ==> s == SubstringBefore(s, d) + d + r
    ensures !Contains(s, d) ==> r == s
  {
    match IndexOf(s, d)
    case Some(i) => s[i + |d|..]
    case None => s
  }

  /** `take(n)`. */
  function Take(s: string, n: nat): (r: string)
    ensures |r| == if n <= |s| then n else |s|
    ensures StartsWith(s, r)
  {
    if n <= |s| then s[..n] else s
  }

  /** `trimStart()`. */
  function TrimStart(s: string): (r: string)
    ensures |r| <= |s| && r == s[|s| - |r|..]
    ensures r == [] || !IsWhitespace(r[0])
    ensures IsBlank(s[..|s| - |r|])
  {
    if s == [] || !IsWhitespace(s[0]) then s
    else
      var r := TrimStart(s[1..]);
      assert s[1..][..|s| - 1 - |r|] == s[1..|s| - |r|];
      r
  }

  /** A string that starts with a non-whitespace character is its own `trimStart()`. */
  lemma TrimStartUnchanged(s: string)
    requires s != [] && !IsWhitespace(s[0])
    ensures TrimStart(s) == s
  {
  }

  /** `trimEnd()`. */
  function TrimEnd(s: string): (r: string)
    ensures |r| <= |s| && r == s[..|r|]
    ensures r == [] || !IsWhitespace(r[|r| - 1])
    ensures IsBlank(s[|r|..])
  {
    if s == [] || !IsWhitespace(s[|s| - 1]) then s
    else TrimEnd(s[..|s| - 1])
  }

  /** `trim()`. */
  function Trim(s: string): string
  {
    TrimEnd(TrimStart(s))
  }

  /** Number of leading characters of `s` that satisfy `p` (`takeWhile(p).count()`). */
  function LeadingCount(s: string, p: char -> bool): (r: nat)
    ensures r <= |s|
    ensures forall i | 0 <= i < r :: p(s[i])
    ensures r == |s| || !p(s[r])
  {
    if s == [] || !p(s[0]) then 0 else 1 + LeadingCount(s[1..], p)
  }

  /** Number of occurrences of `c` in `s` (`count { it == c }`). */
  function CountChar(s: string, c: char): (r: nat)
    ensures r <= |s|
  {
    if s == [] then 0 else (if s[0] == c then 1 else 0) + CountChar(s[1..], c)
  }

  /** `joinToString("")`. */
  function Concat(parts: seq<string>): string
  {
    if parts == [] then "" else Concat(parts[..|parts| - 1]) + parts[|parts| - 1]
  }

  /** Joining a list with a first part puts that part first. */
  lemma {:induction false} ConcatCons(x: string, xs: seq<string>)
    ensures Concat([x] + xs) == x + Concat(xs)
    decreases |xs|
  {
    if xs == [] {
      assert [x] + xs == [x] && [x][..0] == [];
    } else {
      var init := xs[..|xs| - 1];
      assert ([x] + xs)[..|xs|] == [x] + init;
      ConcatCons(x, init);
    }
  }

  /** `joinToString(sep)`. */
  function Join(parts: seq<string>, sep: string): string
  {
    if parts == [] then ""
    else if |parts| == 1 then parts[0]
    else Join(parts[..|parts| - 1], sep) + sep + parts[|parts| - 1]
  }

  predicate IsLineBreak(c: char)
  {
    c == '\n' || c == '\r'
  }

  /** Index of the first `\n` or `\r` in `s`. */
  function FirstBreak(s: string): (r: Option<nat>)
    ensures r.Some? ==> r.value < |s| && IsLineBreak(s[r.value])
    ensures r.Some? ==> forall j | 0 <= j < r.value :: !IsLineBreak(s[j])
    ensures r.None? ==> forall j | 0 <= j < |s| :: !IsLineBreak(s[j])
  {
    if s == [] then None
    else if IsLineBreak(s[0]) then Some(0)
    else match FirstBreak(s[1..])
      case None => None
      case Some(i) => Some(i + 1)
  }

  /** Kotlin's `lines()`: split at `\r\n`, `\n` and `\r`; there is always at
      least one line, and a trailing terminator yields a final empty line. */
  function Lines(s: string): (r: seq<string>)
    ensures |r| >= 1
    ensures forall k | 0 <= k < |r| :: forall j | 0 <= j < |r[k]| :: !IsLineBreak(r[k][j])
    decreases |s|
  {
    match FirstBreak(s)
    case None => [s]
    case Some(i) =>
      var rest := if s[i] == '\r' && i + 1 < |s| && s[i + 1] == '\n' then s[i + 2..] else s[i + 1..];
      [s[..i]] + Lines(rest)
  }

  predicate IsDigit(c: char)
  {
    '0' <= c <= '9'
  }

  predicate IsHexDigit(c: char)
  {
    IsDigit(c) || 'a' <= c <= 'f' || 'A' <= c <= 'F'
  }

  function HexValue(c: char): (v: nat)
    requires IsHexDigit(c)
    ensures v < 16
  {
    if IsDigit(c) then c as int - '0' as int
    else if 'a' <= c <= 'f' then c as int - 'a' as int + 10
    else c as int - 'A' as int + 10
  }

  /** The value of a string of digits in the given base. */
  function DigitsValue(s: string, base: nat): nat
    requires base == 10 || base == 16
    requires forall i | 0 <= i < |s| :: IsHexDigit(s[i]) && HexValue(s[i]) < base
  {
    if s == [] then 0 else DigitsValue(s[..|s| - 1], base) * base + HexValue(s[|s| - 1])
  }

  const IntMax: int := 0x7FFF_FFFF
  const IntMin: int := -0x8000_0000

  predicate AllDigits(s: string)
  {
    forall i | 0 <= i < |s| :: IsDigit(s[i])
  }

  /** Kotlin's `String.toInt()` for ASCII digits: an optional sign and at
      least one digit, in the 32-bit range; anything else is a
      NumberFormatException (`None`). */
  function ParseInt(s: string): (r: Option<int>)
    ensures r.Some? ==> IntMin <= r.value <= IntMax
  {
    var neg := |s| > 0 && s[0] == '-';
    var digits := if |s| > 0 && (s[0] == '-' || s[0] == '+') then s[1..] else s;
    if digits == [] || !AllDigits(digits) then None
    else
      var v: int := if neg then -(DigitsValue(digits, 10) as int) else DigitsValue(digits, 10);
      if IntMin <= v <= IntMax then Some(v) else None
  }

  /** `toInt(16)` on a string of hex digits: NumberFormatException beyond
      the 32-bit range. */
  function ParseHex(s: string): (r: Option<nat>)
    requires forall i | 0 <= i < |s| :: IsHexDigit(s[i])
    ensures r.Some? ==> r.value <= IntMax
  {
    if s == [] then None
    else
      var v := DigitsValue(s, 16);
      if v <= IntMax then Some(v) else None
  }

  function DigitChar(d: nat): (c: char)
    requires d < 10
    ensures IsDigit(c) && HexValue(c) == d
  {
    ('0' as int + d) as char
  }

  /** Decimal rendering of a natural number, as string templates print it. */
  function NatToString(n: nat): (r: string)
    ensures |r| >= 1 && AllDigits(r)
    ensures forall i | 0 <= i < |r| :: IsHexDigit(r[i]) && HexValue(r[i]) < 10
    decreases n
  {
    if n < 10 then [DigitChar(n)] else NatToString(n / 10) + [DigitChar(n % 10)]
  }

  /** Reading back what `NatToString` prints gives the number. */
  lemma {:induction false} NatToStringValue(n: nat)
    ensures DigitsValue(NatToString(n), 10) == n
    decreases n
  {
    var r := NatToString(n);
    if n >= 10 {
      NatToStringValue(n / 10);
      assert r[..|r| - 1] == NatToString(n / 10);
    }
  }

  lemma ParseIntOfNatToString(n: nat)
    requires n <= IntMax
    ensures ParseInt(NatToString(n)) == Some(n)
  {
    NatToStringValue(n);
  }
}
