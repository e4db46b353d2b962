/**
 * The JavaScript string built-ins the game's code relies on, written out with
 * their edge cases: `trim`, `split(/\r?\n/)`, `slice` with negative or
 * out-of-range indices, `lastIndexOf` with a clamped start position, the
 * match of leading spaces, `startsWith`, and the decimal rendering of an
 * integer inside a template string.
 */
module JsText {

  // ---------------------------------------------------------------------------
  // Whitespace and trim
  // ---------------------------------------------------------------------------

  /** The characters `String.prototype.trim` removes: WhiteSpace and LineTerminator. */
  predicate IsSpace(c: char) {
    c == '\t' || c == '\n' || c == '\U{B}' || c == '\U{C}' || c == '\r' || c == ' '
    || c == '\U{A0}' || c == '\U{1680}' || ('\U{2000}' <= c <= '\U{200A}')
    || c == '\U{2028}' || c == '\U{2029}' || c == '\U{202F}' || c == '\U{205F}'
    || c == '\U{3000}' || c == '\U{FEFF}'
  }

  predicate AllSpace(s: string) {
    forall i :: 0 <= i < |s| ==> IsSpace(s[i])
  }

  function TrimStart(s: string): (r: string)
    ensures |r| <= |s|
  {
    if |s| > 0 && IsSpace(s[0]) then TrimStart(s[1..]) else s
  }

  function TrimEnd(s: string): (r: string)
    ensures |r| <= |s|
  {
    if |s| > 0 && IsSpace(s[|s| - 1]) then TrimEnd(s[..|s| - 1]) else s
  }

  /** `s.trim()`: a piece of `s` that neither starts nor ends with whitespace. */
  function Trim(s: string): (r: string)
    ensures |r| <= |s|
  {
    TrimEnd(TrimStart(s))
  }

  /** A string that neither starts nor ends with whitespace is its own trim. */
  lemma TrimOfTrimmed(s: string)
    requires |s| > 0 && !IsSpace(s[0]) && !IsSpace(s[|s| - 1])
    ensures Trim(s) == s
  {
  }

  /** TrimStart drops a whitespace prefix and stops at the first other character. */
  lemma {:induction false} TrimStartShape(s: string)
    ensures var r := TrimStart(s);
      |r| <= |s| && r == s[|s| - |r|..] && AllSpace(s[..|s| - |r|]) && (r == [] || !IsSpace(r[0]))
  {
    if |s| > 0 && IsSpace(s[0]) {
      TrimStartShape(s[1..]);
      var r := TrimStart(s);
      assert s[..|s| - |r|] == [s[0]] + s[1..][..|s| - 1 - |r|];
    }
  }

  /** TrimEnd drops a whitespace suffix and stops at the last other character. */
  lemma {:induction false} TrimEndShape(s: string)
    ensures var r := TrimEnd(s);
      |r| <= |s| && r == s[..|r|] && AllSpace(s[|r|..]) && (r == [] || !IsSpace(r[|r| - 1]))
  {
    if |s| > 0 && IsSpace(s[|s| - 1]) {
      TrimEndShape(s[..|s| - 1]);
      var r := TrimEnd(s);
      assert s[|r|..] == s[..|s| - 1][|r|..] + [s[|s| - 1]];
    }
  }

  /** A trimmed string is empty exactly when the input was all whitespace. */
  lemma TrimEmptyIff(s: string)
    ensures Trim(s) == [] <==> AllSpace(s)
  {
    TrimStartShape(s);
    var t := TrimStart(s);
    TrimEndShape(t);
    if Trim(s) == [] {
      assert AllSpace(t) by { assert t[0..] == t; }
      assert s == s[..|s| - |t|] + t;
    }
  }

  /** `n` spaces, as an indentation prefix. */
  function Spaces(n: nat): (r: string)
    ensures |r| == n && forall i :: 0 <= i < n ==> r[i] == ' '
  {
    if n == 0 then "" else " " + Spaces(n - 1)
  }

  lemma {:induction false} TrimIgnoresIndent(n: nat, s: string)
    ensures Trim(Spaces(n) + s) == Trim(s)
  {
    TrimStartIgnoresIndent(n, s);
  }

  lemma {:induction false} TrimStartIgnoresIndent(n: nat, s: string)
    ensures TrimStart(Spaces(n) + s) == TrimStart(s)
  {
    if n > 0 {
      var t := Spaces(n) + s;
      assert t[0] == ' ';
      assert t[1..] == Spaces(n - 1) + s;
      TrimStartIgnoresIndent(n - 1, s);
    } else {
      assert Spaces(0) + s == s;
    }
  }

  // ---------------------------------------------------------------------------
  // Splitting into lines: `s.split(/\r?\n/)`
  // ---------------------------------------------------------------------------

  function CountChar(s: string, c: char): nat {
    if s == [] then 0 else (if s[0] == c then 1 else 0) + CountChar(s[1..], c)
  }

  /**
   * `s.split(/\r?\n/)`: the pieces between line breaks, where a break is a
   * newline together with at most one carriage return right before it.
   */
  function SplitLines(s: string): (r: seq<string>)
    ensures |r| == CountChar(s, '\n') + 1
    ensures forall i :: 0 <= i < |r| ==> '\n' !in r[i]
  {
    if s == [] then [""]
    else if |s| >= 2 && s[0] == '\r' && s[1] == '\n' then
      assert CountChar(s, '\n') == CountChar(s[2..], '\n') + 1 by {
        assert s[1..][1..] == s[2..];
      }
      [""] + SplitLines(s[2..])
    else if s[0] == '\n' then [""] + SplitLines(s[1..])
    else
      var rest := SplitLines(s[1..]);
      [[s[0]] + rest[0]] + rest[1..]
  }

  /** A text without line breaks is a single line. */
  lemma {:induction false} SplitLinesSingle(a: string)
    requires '\n' !in a
    ensures SplitLines(a) == [a]
  {
    if a != [] {
      assert '\n' !in a[1..] by { assert forall i :: 0 <= i < |a| - 1 ==> a[1..][i] == a[i + 1]; }
      SplitLinesSingle(a[1..]);
      assert a == [a[0]] + a[1..];
    }
  }

  /** A first line free of carriage returns and newlines splits off as it is. */
  lemma {:induction false} SplitLinesCons(a: string, b: string)
    requires '\n' !in a && '\r' !in a
    ensures SplitLines(a + "\n" + b) == [a] + SplitLines(b)
  {
    var s := a + "\n" + b;
    if a == [] {
      assert s == "\n" + b && s[1..] == b;
    } else {
      assert '\n' !in a[1..] && '\r' !in a[1..] by {
        assert forall i :: 0 <= i < |a| - 1 ==> a[1..][i] == a[i + 1];
      }
      SplitLinesCons(a[1..], b);
      assert s[1..] == a[1..] + "\n" + b;
      assert a == [a[0]] + a[1..];
    }
  }

  /** The lines joined back with `"\n"`: the inverse of splitting. */
  function JoinLines(lines: seq<string>): string {
    if lines == [] then ""
    else if |lines| == 1 then lines[0]
    else lines[0] + "\n" + JoinLines(lines[1..])
  }

  /** Splitting and joining again gives back any text without carriage returns. */
  lemma {:induction false} SplitJoinRoundTrip(s: string)
    requires '\r' !in s
    ensures JoinLines(SplitLines(s)) == s
  {
    if s == [] {
    } else if s[0] == '\n' {
      assert '\r' !in s[1..] by { assert forall i :: 0 <= i < |s| - 1 ==> s[1..][i] == s[i + 1]; }
      SplitJoinRoundTrip(s[1..]);
      assert s == "" + "\n" + s[1..];
    } else {
      assert '\r' !in s[1..] by { assert forall i :: 0 <= i < |s| - 1 ==> s[1..][i] == s[i + 1]; }
      SplitJoinRoundTrip(s[1..]);
      var rest := SplitLines(s[1..]);
      var r := SplitLines(s);
      assert r == [[s[0]] + rest[0]] + rest[1..];
      if |rest| == 1 {
        assert JoinLines(r) == [s[0]] + rest[0];
        assert JoinLines(rest) == rest[0];
      } else {
        assert r[1..] == rest[1..];
        assert JoinLines(r) == [s[0]] + rest[0] + "\n" + JoinLines(rest[1..]);
        assert JoinLines(rest) == rest[0] + "\n" + JoinLines(rest[1..]);
      }
      assert s == [s[0]] + s[1..];
    }
  }

  // ---------------------------------------------------------------------------
  // slice, lastIndexOf, regex /^ */, startsWith
  // ---------------------------------------------------------------------------

  /** How `slice` resolves one index: negative counts from the end, then clamp to [0, len]. */
  function SliceIndex(i: int, len: nat): (r: nat)
    ensures r <= len
    ensures 0 <= i <= len ==> r == i
  {
    if i < 0 then (if len + i < 0 then 0 else len + i)
    else if i > len then len
    else i
  }

  /** `s.slice(a, b)` */
  function Slice(s: string, a: int, b: int): (r: string)
    ensures 0 <= a <= b <= |s| ==> r == s[a..b]
  {
    var from, to := SliceIndex(a, |s|), SliceIndex(b, |s|);
    if from < to then s[from..to] else ""
  }

  /** The last index `k <= from` with `s[k] == c`, or -1. */
  function LastIndexFrom(s: string, c: char, from: int): (r: int)
    requires -1 <= from < |s|
    ensures -1 <= r <= from
    ensures r >= 0 ==> s[r] == c
    ensures forall j :: r < j <= from ==> s[j] != c
    decreases from + 1
  {
    if from < 0 then -1 else if s[from] == c then from else LastIndexFrom(s, c, from - 1)
  }

  /**
   * `s.lastIndexOf(c, pos)` for a one-character needle: the start position is
   * clamped to [0, |s| - 1], so a negative `pos` still inspects index 0.
   */
  function LastIndexOf(s: string, c: char, pos: int): (r: int)
    ensures -1 <= r < |s|
    ensures r >= 0 ==> s[r] == c
    ensures r <= (if pos < 0 then 0 else pos)
    ensures forall j :: r < j < |s| && j <= (if pos < 0 then 0 else pos) ==> s[j] != c
  {
    if |s| == 0 then -1
    else LastIndexFrom(s, c, if pos < 0 then 0 else if pos > |s| - 1 then |s| - 1 else pos)
  }

  /** The regex match of the leading spaces: the run of U+0020 spaces that starts the string. */
  function LeadingSpaces(s: string): (r: string)
    ensures |r| <= |s| && r == s[..|r|]
    ensures forall i :: 0 <= i < |r| ==> r[i] == ' '
    ensures |r| == |s| || s[|r|] != ' '
  {
    if |s| > 0 && s[0] == ' ' then " " + LeadingSpaces(s[1..]) else ""
  }

  predicate StartsWith(s: string, prefix: string) {
    |prefix| <= |s| && s[..|prefix|] == prefix
  }

  // ---------------------------------------------------------------------------
  // Integers rendered in a template string: `${n}`
  // ---------------------------------------------------------------------------

  predicate IsDigit(c: char) {
    '0' <= c <= '9'
  }

  function DigitChar(d: nat): (c: char)
    requires d < 10
    ensures IsDigit(c) && DigitValue(c) == d
  {
    "0123456789"[d]
  }

  function NatToString(n: nat): (r: string)
    ensures |r| >= 1 && AllDigits(r)
    decreases n
  {
    if n < 10 then [DigitChar(n)] else NatToString(n / 10) + [DigitChar(n % 10)]
  }

  /** The decimal text of an integer, with a leading `-` when negative. */
  function IntToString(i: int): (r: string)
    ensures |r| >= 1 && ',' !in r && IntText(r)
  {
    if i < 0 then "-" + NatToString(-i) else NatToString(i)
  }

  predicate AllDigits(s: string) {
    forall i :: 0 <= i < |s| ==> IsDigit(s[i])
  }

  function DigitValue(c: char): nat
    requires IsDigit(c)
  {
    c as int - '0' as int
  }

  function ParseNat(s: string): nat
    requires AllDigits(s)
  {
    if s == [] then 0 else ParseNat(s[..|s| - 1]) * 10 + DigitValue(s[|s| - 1])
  }

  /** An optional minus sign followed by digits. */
  predicate IntText(s: string) {
    |s| >= 1 && (AllDigits(s) || (s[0] == '-' && AllDigits(s[1..])))
  }

  /** Reads back an optional `-` followed by decimal digits. */
  function ParseInt(s: string): int
    requires IntText(s)
  {
    if s[0] == '-' then 0 - ParseNat(s[1..]) else ParseNat(s)
  }

  lemma {:induction false} ParseNatToString(n: nat)
    ensures ParseNat(NatToString(n)) == n
    decreases n
  {
    if n >= 10 {
      var s := NatToString(n);
      assert s[..|s| - 1] == NatToString(n / 10);
      ParseNatToString(n / 10);
    }
  }

  /** Reading the rendered integer back gives the integer. */
  lemma ParseIntToString(i: int)
    ensures ParseInt(IntToString(i)) == i
  {
    var s := IntToString(i);
    if i < 0 {
      var digits := NatToString(-i);
      assert s == "-" + digits;
      assert s[0] == '-' && s[1..] == digits;
      ParseNatToString(-i);
      assert ParseInt(s) == 0 - ParseNat(digits);
    } else {
      assert s == NatToString(i);
      assert IsDigit(s[0]);
      ParseNatToString(i);
      assert ParseInt(s) == ParseNat(s);
    }
  }

  lemma IntToStringInjective(a: int, b: int)
    requires IntToString(a) == IntToString(b)
    ensures a == b
  {
    ParseIntToString(a);
    ParseIntToString(b);
  }

  /** The first index of `c` in `s`, or -1. */
  function IndexOf(s: string, c: char): int {
    if s == [] then -1
    else if s[0] == c then 0
    else var k := IndexOf(s[1..], c); if k < 0 then -1 else k + 1
  }

  lemma {:induction false} IndexOfAfter(a: string, c: char, rest: string)
    requires c !in a
    ensures IndexOf(a + [c] + rest, c) == |a|
  {
    if a != [] {
      assert (a + [c] + rest)[1..] == a[1..] + [c] + rest;
      IndexOfAfter(a[1..], c, rest);
    }
  }

  /** Two comma-free pieces on either side of one comma are determined by the whole. */
  lemma CommaSplitUnique(a: string, b: string, c: string, d: string)
    requires ',' !in a && ',' !in c
    requires a + "," + b == c + "," + d
    ensures a == c && b == d
  {
    var s := a + "," + b;
    IndexOfAfter(a, ',', b);
    IndexOfAfter(c, ',', d);
    assert a == s[..|a|] && c == s[..|c|];
    assert b == s[|a| + 1..] && d == s[|c| + 1..];
  }
}
