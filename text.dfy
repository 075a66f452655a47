/**
 * String operations the backend (Python) and the mobile app (JavaScript) rely on:
 * whitespace trimming, prefix tests, substring search, Python's `str.split(sep)[1]`
 * and decimal rendering of natural numbers.
 */
module Text {
  import opened Wrappers

  /** The characters Python's `str.isspace()` accepts, so the ones `str.strip()` removes. */
  predicate IsPyWhitespace(c: char) {
    var n := c as int;
    (9 <= n <= 13) || (28 <= n <= 32) || n == 0x85 || n == 0xA0 || n == 0x1680
    || (0x2000 <= n <= 0x200A) || n == 0x2028 || n == 0x2029 || n == 0x202F
    || n == 0x205F || n == 0x3000
  }

  /** The characters JavaScript's `String.prototype.trim()` removes (white space and line terminators). */
  predicate IsJsWhitespace(c: char) {
    var n := c as int;
    (9 <= n <= 13) || n == 32 || n == 0xA0 || n == 0x1680
    || (0x2000 <= n <= 0x200A) || n == 0x2028 || n == 0x2029 || n == 0x202F
    || n == 0x205F || n == 0x3000 || n == 0xFEFF
  }

  /** Drops the longest prefix of characters satisfying `ws`. */
  function TrimStart(s: string, ws: char -> bool): (r: string)
    ensures |r| <= |s| && r == s[|s| - |r|..]
    ensures forall i | 0 <= i < |s| - |r| :: ws(s[i])
    ensures r != [] ==> !ws(r[0])
  {
    if s != [] && ws(s[0]) then TrimStart(s[1..], ws) else s
  }

  /** Drops the longest suffix of characters satisfying `ws`. */
  function TrimEnd(s: string, ws: char -> bool): (r: string)
    ensures |r| <= |s| && r == s[..|r|]
    ensures forall i | |r| <= i < |s| :: ws(s[i])
    ensures r != [] ==> !ws(r[|r| - 1])
  {
    if s != [] && ws(s[|s| - 1]) then TrimEnd(s[..|s| - 1], ws) else s
  }

  /**
   * Python `str.strip()` (with `IsPyWhitespace`) and JavaScript `trim()` (with
   * `IsJsWhitespace`): the result is the slice of `s` left after removing every
   * leading and every trailing whitespace character, and it neither starts nor
   * ends with one.
   */
  function Trim(s: string, ws: char -> bool): (r: string)
    ensures var a := |s| - |TrimStart(s, ws)|;
      && a + |r| <= |s|
      && r == s[a..a + |r|]
      && (forall i | 0 <= i < a :: ws(s[i]))
      && (forall i | a + |r| <= i < |s| :: ws(s[i]))
    ensures r != [] ==> !ws(r[0]) && !ws(r[|r| - 1])
  {
    var t := TrimStart(s, ws);
    var r := TrimEnd(t, ws);
    TrimSlices(s, t, r, ws);
    r
  }

  /** A suffix `t` of `s` cut back to a prefix `r` of it is the slice of `s` in between. */
  lemma TrimSlices(s: string, t: string, r: string, ws: char -> bool)
    requires |t| <= |s| && t == s[|s| - |t|..]
    requires |r| <= |t| && r == t[..|r|]
    requires forall i | |r| <= i < |t| :: ws(t[i])
    ensures var a := |s| - |t|;
      && r == s[a..a + |r|]
      && (forall i | a + |r| <= i < |s| :: ws(s[i]))
  {
    var a := |s| - |t|;
    forall i | a + |r| <= i < |s| ensures ws(s[i]) {
      assert s[i] == t[i - a];
    }
  }

  /** Every character of `s` is whitespace (vacuously so for the empty string). */
  predicate IsBlank(s: string, ws: char -> bool) {
    forall i | 0 <= i < |s| :: ws(s[i])
  }

  /** A string trims to nothing exactly when it is blank. */
  lemma TrimEmptyIffBlank(s: string, ws: char -> bool)
    ensures Trim(s, ws) == "" <==> IsBlank(s, ws)
  {
    var r := Trim(s, ws);
    var a := |s| - |TrimStart(s, ws)|;
    if r != "" {
      assert s[a] == r[0];
    }
  }

  /** Trimming twice is trimming once. */
  lemma TrimIdempotent(s: string, ws: char -> bool)
    ensures Trim(Trim(s, ws), ws) == Trim(s, ws)
  {
    var r := Trim(s, ws);
    if r != [] {
      assert TrimStart(r, ws) == r;
      assert TrimEnd(r, ws) == r;
    }
  }

  /** Python `s.startswith(p)`. */
  predicate StartsWith(s: string, p: string) {
    |p| <= |s| && s[..|p|] == p
  }

  /** `pat` occurs in `s` at position `j`. */
  predicate OccursAt(s: string, pat: string, j: int) {
    0 <= j && j + |pat| <= |s| && s[j..j + |pat|] == pat
  }

  /** The first position at or after `from` where `pat` occurs in `s` (Python `s.find(pat, from)`). */
  function IndexFrom(s: string, pat: string, from: nat): (r: Option<nat>)
    ensures r.Some? ==> from <= r.value && OccursAt(s, pat, r.value)
    ensures r.Some? ==> forall j | from <= j < r.value :: !OccursAt(s, pat, j)
    ensures r.None? ==> forall j | from <= j :: !OccursAt(s, pat, j)
    decreases |s| - from
  {
    if from + |pat| > |s| then None
    else if s[from..from + |pat|] == pat then Some(from)
    else IndexFrom(s, pat, from + 1)
  }

  /** `pat in s` in Python. */
  predicate Contains(s: string, pat: string) {
    IndexFrom(s, pat, 0).Some?
  }

  /**
   * Python `s.split(sep)[1]`, the piece between the first and the second
   * occurrence of `sep` (or the end of `s`). Python raises `IndexError` when
   * `sep` does not occur; every caller in the source checks that first.
   */
  function SplitSecond(s: string, sep: string): (r: string)
    requires |sep| > 0 && Contains(s, sep)
    ensures var start := IndexFrom(s, sep, 0).value + |sep|;
      && start + |r| <= |s|
      && r == s[start..start + |r|]
      && (start + |r| == |s| || OccursAt(s, sep, start + |r|))
      && (forall k | start <= k < start + |r| :: !OccursAt(s, sep, k))
    ensures forall j :: !OccursAt(r, sep, j)
  {
    var start := IndexFrom(s, sep, 0).value + |sep|;
    var next := IndexFrom(s, sep, start);
    var stop := if next.Some? then next.value else |s|;
    forall j | OccursAt(s[start..stop], sep, j)
      ensures false
    {
      OccursInSlice(s, start, stop, sep, j);
    }
    s[start..stop]
  }

  /** An occurrence inside a slice is an occurrence in the whole string. */
  lemma OccursInSlice(s: string, a: nat, b: nat, pat: string, j: int)
    requires a <= b <= |s| && OccursAt(s[a..b], pat, j)
    ensures OccursAt(s, pat, a + j) && a + j + |pat| <= b
  {
    var t := s[a..b];
    var u, v := t[j..j + |pat|], s[a + j..a + j + |pat|];
    assert forall k | 0 <= k < |pat| :: u[k] == v[k];
    assert u == v;
  }

  // ---- decimal numbers ----

  predicate IsDigit(c: char) {
    '0' <= c <= '9'
  }

  predicate AllDigits(s: string) {
    forall i | 0 <= i < |s| :: IsDigit(s[i])
  }

  function DigitChar(d: nat): (c: char)
    requires d < 10
    ensures IsDigit(c) && DigitValue(c) == d
  {
    ('0' as int + d) as char
  }

  function DigitValue(c: char): nat
    requires IsDigit(c)
  {
    (c as int) - ('0' as int)
  }

  /** The decimal rendering of `n`, as JavaScript's `n.toString()` and a `${n}` template give it. */
  function NatToString(n: nat): (r: string)
    ensures |r| >= 1 && AllDigits(r)
    ensures n < 10 <==> |r| == 1
  {
    if n < 10 then [DigitChar(n)] else NatToString(n / 10) + [DigitChar(n % 10)]
  }

  /** The number a string of decimal digits denotes. */
  function ParseDigits(s: string): nat
    requires AllDigits(s)
  {
    if s == [] then 0 else ParseDigits(s[..|s| - 1]) * 10 + DigitValue(s[|s| - 1])
  }

  /** Reading back a rendered number gives the number. */
  lemma {:induction false} ParseNatToString(n: nat)
    ensures ParseDigits(NatToString(n)) == n
  {
    if n >= 10 {
      var s := NatToString(n);
      assert s[..|s| - 1] == NatToString(n / 10);
      ParseNatToString(n / 10);
    }
  }

  /** JavaScript `s.padStart(len, [pad])`. */
  function PadStart(s: string, len: nat, pad: char): (r: string)
    ensures |r| == if |s| < len then len else |s|
    ensures r[|r| - |s|..] == s
    ensures forall i | 0 <= i < |r| - |s| :: r[i] == pad
  {
    if |s| < len then seq(len - |s|, _ => pad) + s else s
  }
}
