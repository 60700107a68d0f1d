/**
 * The handful of Python `str` operations the modelled scripts rely on:
 * `strip()`, `in`, `split(sep)[0]` / `split(sep)[1]`, `split(c)`,
 * `replace(old, new)`, `startswith` / `endswith`, `int(text)` and the
 * decimal rendering of integers used when an index is written into a path.
 */
module Text {
  import opened Wrappers

  // ---------------------------------------------------------------------
  // Whitespace and strip()

  /** Python's `str.isspace()` for one character: the characters that
    * `str.strip()` and `int()` skip. */
  predicate IsSpace(c: char) {
    var n := c as int;
    (9 <= n <= 13) || (28 <= n <= 32) || n == 0x85 || n == 0xA0 || n == 0x1680
    || (0x2000 <= n <= 0x200A) || n == 0x2028 || n == 0x2029 || n == 0x202F
    || n == 0x205F || n == 0x3000
  }

  /** No whitespace at either end. */
  predicate Stripped(s: string) {
    s == [] || (!IsSpace(s[0]) && !IsSpace(s[|s| - 1]))
  }

  /** The first index at or after `i` that does not hold whitespace. */
  function SkipSpaces(s: string, i: nat): (j: nat)
    requires i <= |s|
    ensures i <= j <= |s|
    ensures forall k :: i <= k < j ==> IsSpace(s[k])
    ensures j < |s| ==> !IsSpace(s[j])
    decreases |s| - i
  {
    if i < |s| && IsSpace(s[i]) then SkipSpaces(s, i + 1) else i
  }

  /** The end of `s[lo..hi]` once its trailing whitespace is dropped. */
  function TrimEnd(s: string, lo: nat, hi: nat): (j: nat)
    requires lo <= hi <= |s|
    ensures lo <= j <= hi
    ensures forall k :: j <= k < hi ==> IsSpace(s[k])
    ensures lo < j ==> !IsSpace(s[j - 1])
    decreases hi
  {
    if lo < hi && IsSpace(s[hi - 1]) then TrimEnd(s, lo, hi - 1) else hi
  }

  function StripStart(s: string): nat {
    SkipSpaces(s, 0)
  }

  function StripEnd(s: string): (j: nat)
    ensures StripStart(s) <= j <= |s|
  {
    TrimEnd(s, StripStart(s), |s|)
  }

  /** Python's `s.strip()`: the longest slice of `s` that keeps every
    * non-whitespace character and has no whitespace at either end. */
  function Strip(s: string): (r: string)
    ensures Stripped(r)
    ensures r == s[StripStart(s)..StripEnd(s)]
    ensures forall k :: 0 <= k < StripStart(s) ==> IsSpace(s[k])
    ensures forall k :: StripEnd(s) <= k < |s| ==> IsSpace(s[k])
    ensures Stripped(s) ==> r == s
  {
    var lo := StripStart(s);
    var hi := StripEnd(s);
    s[lo..hi]
  }

  // ---------------------------------------------------------------------
  // Substrings: `in`, find, split(sep)[0] and split(sep)[1]

  predicate OccursAt(s: string, p: string, i: nat) {
    i + |p| <= |s| && s[i..i + |p|] == p
  }

  /** The first occurrence of `p` in `s` at or after `i`, as `str.find`. */
  function FindFrom(s: string, p: string, i: nat): (r: Option<nat>)
    requires i <= |s|
    ensures r.Some? ==> i <= r.value <= |s| && OccursAt(s, p, r.value)
    ensures r.Some? ==> forall k :: i <= k < r.value ==> !OccursAt(s, p, k)
    ensures r.None? ==> forall k: nat :: i <= k ==> !OccursAt(s, p, k)
    decreases |s| - i
  {
    if i + |p| > |s| then None
    else if OccursAt(s, p, i) then Some(i)
    else FindFrom(s, p, i + 1)
  }

  function Find(s: string, p: string): Option<nat> {
    FindFrom(s, p, 0)
  }

  /** Python's `p in s`. */
  predicate Contains(s: string, p: string) {
    Find(s, p).Some?
  }

  lemma {:induction false} ContainsAt(s: string, p: string, i: nat)
    requires OccursAt(s, p, i)
    ensures Contains(s, p)
  {
  }

  /** `s.split(sep)[0]`: the text before the first `sep`, or all of `s`. */
  function Before(s: string, sep: string): (r: string)
    ensures r <= s
    ensures !Contains(s, sep) ==> r == s
  {
    match Find(s, sep)
    case Some(i) => s[..i]
    case None => s
  }

  /** The text after the first `sep`. */
  function After(s: string, sep: string): (r: string)
    requires Contains(s, sep)
    ensures |r| + |sep| <= |s|
  {
    s[Find(s, sep).value + |sep|..]
  }

  /** `s.split(sep)[1]`: the text between the first and second `sep`, or
    * from the first `sep` to the end (for a non-empty separator). */
  function SecondPiece(s: string, sep: string): string
    requires Contains(s, sep)
  {
    Before(After(s, sep), sep)
  }

  /** An occurrence inside a slice is an occurrence in the whole text. */
  lemma {:induction false} OccursInSlice(s: string, p: string, lo: nat, hi: nat, j: nat)
    requires lo <= hi <= |s|
    ensures OccursAt(s[lo..hi], p, j) ==> OccursAt(s, p, lo + j)
  {
    if j + |p| <= hi - lo {
      var t := s[lo..hi];
      var a, b := t[j..j + |p|], s[lo + j..lo + j + |p|];
      assert forall m :: 0 <= m < |p| ==> a[m] == b[m];
      assert a == b;
    }
  }

  /** Dropping the first character shifts every occurrence by one. */
  lemma {:induction false} OccursShift(s: string, p: string, k: nat)
    requires |s| >= 1
    ensures OccursAt(s[1..], p, k) <==> OccursAt(s, p, k + 1)
  {
    if k + 1 + |p| <= |s| {
      assert s[1..][k..k + |p|] == s[k + 1..k + 1 + |p|];
    }
  }

  /** The text before the first occurrence of `p` never contains `p`. */
  lemma {:induction false} BeforeFree(s: string, p: string)
    requires |p| > 0
    ensures !Contains(Before(s, p), p)
  {
    var b := Before(s, p);
    match Find(s, p)
    case Some(i) =>
      forall k: nat ensures !OccursAt(b, p, k) {
        OccursInSlice(s, p, 0, i, k);
      }
    case None =>
  }

  /** A slice of a string that does not contain `p` does not contain it either. */
  lemma {:induction false} SliceFree(s: string, p: string, lo: nat, hi: nat)
    requires lo <= hi <= |s|
    requires !Contains(s, p)
    ensures !Contains(s[lo..hi], p)
  {
    forall j: nat ensures !OccursAt(s[lo..hi], p, j) {
      OccursInSlice(s, p, lo, hi, j);
    }
  }

  // ---------------------------------------------------------------------
  // startswith / endswith

  predicate StartsWith(s: string, p: string) {
    p <= s
  }

  predicate EndsWith(s: string, p: string) {
    |p| <= |s| && s[|s| - |p|..] == p
  }

  lemma {:induction false} EndsWithSuffix(p: string, t: string)
    ensures EndsWith(p + t, t)
  {
    assert (p + t)[|p + t| - |t|..] == t;
  }

  // ---------------------------------------------------------------------
  // split on one character

  function IndexOf(s: string, c: char): (i: nat)
    requires c in s
    ensures i < |s| && s[i] == c && c !in s[..i]
    ensures forall k :: 0 <= k < i ==> s[k] != c
  {
    if s[0] == c then 0 else 1 + IndexOf(s[1..], c)
  }

  /** Python's `s.split(c)` for a one-character separator: the pieces
    * between separators, at least one, none holding `c`. */
  function Split(s: string, c: char): (r: seq<string>)
    ensures |r| >= 1
    ensures forall k :: 0 <= k < |r| ==> c !in r[k]
    decreases |s|
  {
    if c in s then
      var i := IndexOf(s, c);
      [s[..i]] + Split(s[i + 1..], c)
    else [s]
  }

  lemma {:induction false} SplitCons(x: string, c: char, rest: string)
    requires c !in x
    ensures Split(x + [c] + rest, c) == [x] + Split(rest, c)
  {
    var s := x + [c] + rest;
    assert s[|x|] == c;
    assert c in s;
    var i := IndexOf(s, c);
    assert forall k :: 0 <= k < |x| ==> s[k] == x[k];
    assert i == |x|;
    assert s[..i] == x;
    assert s[i + 1..] == rest;
  }

  lemma {:induction false} SplitSingle(x: string, c: char)
    requires c !in x
    ensures Split(x, c) == [x]
  {
  }

  // ---------------------------------------------------------------------
  // replace(old, new)

  /** Python's `s.replace(pat, rep)`: every non-overlapping occurrence of
    * `pat`, scanning left to right, is replaced by `rep`. */
  function Replace(s: string, pat: string, rep: string): string
    requires |pat| > 0
    decreases |s|
  {
    if |s| < |pat| then s
    else if s[..|pat|] == pat then rep + Replace(s[|pat|..], pat, rep)
    else [s[0]] + Replace(s[1..], pat, rep)
  }

  /** A text with no occurrence of `pat` is left as it is. */
  lemma {:induction false} ReplaceAbsent(s: string, pat: string, rep: string)
    requires |pat| > 0
    requires forall k: nat :: !OccursAt(s, pat, k)
    ensures Replace(s, pat, rep) == s
    decreases |s|
  {
    if |s| >= |pat| {
      assert !OccursAt(s, pat, 0);
      forall k: nat ensures !OccursAt(s[1..], pat, k) {
        OccursShift(s, pat, k);
      }
      ReplaceAbsent(s[1..], pat, rep);
      assert s == [s[0]] + s[1..];
    }
  }

  /** When no occurrence of `pat` starts inside the prefix `x`, replacing
    * in `x + y` leaves `x` alone and works on `y`. */
  lemma {:induction false} ReplaceAfterPrefix(x: string, y: string, pat: string, rep: string)
    requires |pat| > 0
    requires forall k: nat :: k < |x| ==> !OccursAt(x + y, pat, k)
    ensures Replace(x + y, pat, rep) == x + Replace(y, pat, rep)
    decreases |x|
  {
    if x != [] {
      var s := x + y;
      assert s[1..] == x[1..] + y;
      assert x == [x[0]] + x[1..];
      forall k: nat | k < |x[1..]| ensures !OccursAt(x[1..] + y, pat, k) {
        OccursShift(s, pat, k);
      }
      ReplaceAfterPrefix(x[1..], y, pat, rep);
      assert !OccursAt(s, pat, 0);
      if |s| >= |pat| {
        assert s[..|pat|] != pat;
        assert Replace(s, pat, rep) == [s[0]] + Replace(s[1..], pat, rep);
        assert [x[0]] + (x[1..] + Replace(y, pat, rep)) == x + Replace(y, pat, rep);
        assert Replace(s, pat, rep) == x + Replace(y, pat, rep);
      } else {
        ReplaceAbsentShort(y, pat, rep);
        ReplaceAbsentShort(s, pat, rep);
        assert Replace(s, pat, rep) == x + Replace(y, pat, rep);
      }
    } else {
      assert x + y == y;
    }
  }

  lemma {:induction false} ReplaceAbsentShort(y: string, pat: string, rep: string)
    requires |pat| > 0 && |y| < |pat|
    ensures Replace(y, pat, rep) == y
  {
  }

  // ---------------------------------------------------------------------
  // Decimal digits, int() and str() of integers

  predicate IsDigit(c: char) {
    '0' <= c <= '9'
  }

  predicate AllDigits(s: string) {
    forall i :: 0 <= i < |s| ==> IsDigit(s[i])
  }

  /** The value of a string of ASCII digits, most significant first. */
  function DigitsValue(s: string): nat
    requires AllDigits(s)
  {
    if s == [] then 0
    else DigitsValue(s[..|s| - 1]) * 10 + (s[|s| - 1] as int - '0' as int)
  }

  function Digit(d: nat): (c: char)
    requires d < 10
    ensures IsDigit(c) && c as int - '0' as int == d
  {
    ('0' as int + d) as char
  }

  /** `str(n)` for a natural number: its decimal digits, no leading zero. */
  function NatText(n: nat): (r: string)
    ensures |r| >= 1 && AllDigits(r)
    ensures DigitsValue(r) == n
    ensures |r| > 1 ==> r[0] != '0'
  {
    if n < 10 then [Digit(n)]
    else
      var r := NatText(n / 10) + [Digit(n % 10)];
      assert r[..|r| - 1] == NatText(n / 10);
      r
  }

  /** `str(i)` for any integer. */
  function IntText(i: int): string {
    if i < 0 then "-" + NatText(-i) else NatText(i)
  }

  /** Digits, optionally separated by single underscores, as `int()` accepts. */
  predicate Grouped(d: string) {
    && |d| >= 1 && IsDigit(d[0]) && IsDigit(d[|d| - 1])
    && (forall i :: 0 <= i < |d| ==> IsDigit(d[i]) || d[i] == '_')
    && (forall i :: 0 <= i < |d| - 1 ==> d[i] == '_' ==> d[i + 1] != '_')
  }

  /** The digits of `d` with the underscores removed. */
  function Ungroup(d: string): (r: string)
    requires forall i :: 0 <= i < |d| ==> IsDigit(d[i]) || d[i] == '_'
    ensures AllDigits(r)
    ensures AllDigits(d) ==> r == d
  {
    if d == [] then []
    else if d[0] == '_' then Ungroup(d[1..])
    else [d[0]] + Ungroup(d[1..])
  }

  /** Python's `int(s)` for base 10: whitespace around, an optional sign,
    * then digits with optional single underscores between them. Anything
    * else raises `ValueError`, modelled as `None`. */
  function PyInt(s: string): (r: Option<int>)
    ensures AllDigits(s) && s != [] ==> r == Some(DigitsValue(s))
  {
    var t := Strip(s);
    assert AllDigits(s) && s != [] ==> !IsSpace(s[0]) && !IsSpace(s[|s| - 1]) && t == s;
    if |t| >= 1 && (t[0] == '+' || t[0] == '-') then
      var d := t[1..];
      if Grouped(d) then
        var v: int := DigitsValue(Ungroup(d));
        Some(if t[0] == '-' then -v else v)
      else None
    else if Grouped(t) then Some(DigitsValue(Ungroup(t)))
    else None
  }

  /** `int(str(n)) == n`. */
  lemma {:induction false} PyIntNatText(n: nat)
    ensures PyInt(NatText(n)) == Some(n)
  {
  }
}
