/**
 * The clean-up at the end of `extract_json_from_text` in
 * `src/etl/extract.py`: the model's answer is stripped and, when it is
 * wrapped in a Markdown code fence, cut down to the fenced text.
 */
module Fence {
  import opened Wrappers
  import opened Text

  const Tick: string := "```"
  const JsonTick: string := "```json"

  /** The answer with its fence removed, stripped either way. With a
    * ```` ```json ```` tag: the text after the first tag up to the next
    * tag (or the end), and of that the part before its first ```` ``` ````.
    * Otherwise: the text after the first ```` ``` ```` up to the next
    * ```` ``` ```` (or the end). */
  function StripFences(response: string): (r: string)
    ensures Stripped(r)
  {
    var out := Strip(response);
    if Contains(out, JsonTick) then Strip(Before(SecondPiece(out, JsonTick), Tick))
    else if Contains(out, Tick) then Strip(SecondPiece(out, Tick))
    else out
  }

  // ---------------------------------------------------------------------
  // Helpers about occurrences and slices

  lemma {:induction false} SliceOfSlice(s: string, a: nat, b: nat, c: nat, d: nat)
    requires a <= b <= |s| && c <= d <= b - a
    ensures s[a..b][c..d] == s[a + c..a + d]
  {
    assert forall m :: 0 <= m < d - c ==> s[a..b][c..d][m] == s[a + c..a + d][m];
  }

  /** A ```` ```json ```` tag starts with a ```` ``` ````. */
  lemma {:induction false} TagHasTick(s: string)
    requires Contains(s, JsonTick)
    ensures Contains(s, Tick)
  {
    var i := Find(s, JsonTick).value;
    assert s[i..i + 3] == s[i..i + 7][..3];
    ContainsAt(s, Tick, i);
  }

  /** `FindFrom` shifted along a suffix: `None`, or the index less `d`. */
  function Shift(o: Option<nat>, d: nat): Option<nat>
    requires o.Some? ==> o.value >= d
  {
    if o.Some? then Some(o.value - d) else None
  }

  lemma {:induction false} FindFromSuffix(s: string, p: string, d: nat, j: nat)
    requires d + j <= |s|
    ensures FindFrom(s, p, d + j).Some? ==> FindFrom(s, p, d + j).value >= d
    ensures FindFrom(s[d..], p, j) == Shift(FindFrom(s, p, d + j), d)
    decreases |s| - d - j
  {
    var t := s[d..];
    if j + |p| <= |t| {
      assert t[j..j + |p|] == s[d + j..d + j + |p|];
      if !OccursAt(t, p, j) {
        FindFromSuffix(s, p, d, j + 1);
        assert d + (j + 1) == d + j + 1;
      }
    }
  }

  /** The first `p` in a suffix of `s` is the first `p` of `s` past its start. */
  lemma {:induction false} FindSuffix(s: string, p: string, d: nat)
    requires d <= |s|
    ensures FindFrom(s, p, d).Some? ==> FindFrom(s, p, d).value >= d
    ensures Find(s[d..], p) == Shift(FindFrom(s, p, d), d)
  {
    FindFromSuffix(s, p, d, 0);
  }

  /** The end of the piece that starts at `from`: the next `sep` at or
    * after `from`, or the end of the text. */
  function PieceEnd(s: string, sep: string, from: nat): (e: nat)
    requires from <= |s|
    ensures from <= e <= |s|
  {
    match FindFrom(s, sep, from)
    case Some(j) => j
    case None => |s|
  }

  /** `text.split(sep)[0]` is the slice up to the first `sep`, or all of it. */
  lemma {:induction false} BeforeSlice(s: string, sep: string)
    ensures Before(s, sep) == s[..PieceEnd(s, sep, 0)]
  {
  }

  /** `text.split(tag)[1].split(sep)[0]` is the slice from just after the
    * first `tag` to the next `sep` after it, or to the end. */
  lemma {:induction false} FencedSlice(s: string, tag: string, sep: string)
    requires Contains(s, tag)
    ensures Find(s, tag).value + |tag| <= |s|
    ensures var from := Find(s, tag).value + |tag|;
      Before(After(s, tag), sep) == s[from..PieceEnd(s, sep, from)]
  {
    var from := Find(s, tag).value + |tag|;
    var a := After(s, tag);
    assert a == s[from..];
    FindSuffix(s, sep, from);
    match FindFrom(s, sep, from)
    case Some(j) =>
      assert Before(a, sep) == a[..j - from];
      assert a[..j - from] == s[from..j];
    case None =>
  }

  // ---------------------------------------------------------------------
  // Properties of StripFences

  /** Without any fence the answer is only stripped. */
  lemma {:induction false} NoFenceUnchanged(response: string)
    requires !Contains(Strip(response), Tick)
    ensures StripFences(response) == Strip(response)
  {
    if Contains(Strip(response), JsonTick) {
      TagHasTick(Strip(response));
    }
  }

  /** With a ```` ```json ```` tag, the piece after the first tag up to
    * the next tag (or the end), cut at its first ```` ``` ````, stripped. */
  lemma {:induction false} JsonFenceBody(response: string)
    requires Contains(Strip(response), JsonTick)
    ensures var out := Strip(response);
      var from := Find(out, JsonTick).value + |JsonTick|;
      from <= |out| &&
      var piece := out[from..PieceEnd(out, JsonTick, from)];
      StripFences(response) == Strip(piece[..PieceEnd(piece, Tick, 0)])
  {
    var out := Strip(response);
    FencedSlice(out, JsonTick, JsonTick);
    BeforeSlice(SecondPiece(out, JsonTick), Tick);
  }

  /** The answer ```` ```jsonA````json ````: a tag, `A`, a tick, and a
    * second tag whose ticks follow that tick. */
  lemma {:induction false} TwoTags(out: string)
    requires out == JsonTick + "A`" + JsonTick
    ensures Stripped(out) && Find(out, JsonTick) == Some(0)
    ensures Find(out, JsonTick).value + |JsonTick| == 7 && FindFrom(out, JsonTick, 7) == Some(9)
    ensures out[7..9] == "A`" && out[7..] == "A`" + JsonTick
  {
    assert out[..7] == JsonTick && out[9..] == JsonTick;
    assert OccursAt(out, JsonTick, 0);
    assert out[7] == 'A' && out[11] == '`';
    assert !OccursAt(out, JsonTick, 7) && !OccursAt(out, JsonTick, 8);
    assert out[9..9 + 7] == JsonTick;
    assert FindFrom(out, JsonTick, 9) == Some(9);
  }

  /** A tick that belongs to the next ```` ```json ```` tag ends nothing:
    * the answer ```` ```jsonA````json ```` gives ``A` ``. */
  lemma {:induction false} TickOfNextTagKept()
    ensures StripFences(JsonTick + "A`" + JsonTick) == "A`"
  {
    var out := JsonTick + "A`" + JsonTick;
    TwoTags(out);
    FencedSlice(out, JsonTick, JsonTick);
    assert !OccursAt("A`", Tick, 0);
    assert Stripped("A`");
  }

  /** Cutting at the first ```` ``` ```` after the first tag would give
    * `A` alone for the same answer. */
  lemma {:induction false} FirstTickCutDiffers()
    ensures Strip(Before(After(JsonTick + "A`" + JsonTick, JsonTick), Tick)) == "A"
  {
    var out := JsonTick + "A`" + JsonTick;
    TwoTags(out);
    var a := "A`" + JsonTick;
    assert a[0] == 'A' && a[1..4] == Tick;
    assert !OccursAt(a, Tick, 0) && OccursAt(a, Tick, 1);
    assert Before(a, Tick) == "A";
  }

  /** Without that tag, the text between the first two ```` ``` ````, or
    * from the first to the end, stripped. */
  lemma {:induction false} BareFenceBody(response: string)
    requires !Contains(Strip(response), JsonTick) && Contains(Strip(response), Tick)
    ensures var out := Strip(response);
      var from := Find(out, Tick).value + |Tick|;
      from <= |out| && StripFences(response) == Strip(out[from..PieceEnd(out, Tick, from)])
  {
    FencedSlice(Strip(response), Tick, Tick);
  }

  /** The answer opens with ```` ``` ```` and then a character other than
    * a tick: its first fence is at 0 and the next one comes after `k`. */
  lemma {:induction false} OpeningTick(out: string, k: nat)
    requires 3 < k <= |out| && Tick <= out
    requires forall m :: 3 <= m < k ==> out[m] != '`'
    ensures Find(out, Tick) == Some(0)
    ensures PieceEnd(out, Tick, 3) >= k
  {
    assert out[..3] == Tick;
    forall m | 3 <= m < k ensures !OccursAt(out, Tick, m) {
      if m + 3 <= |out| {
        assert out[m..m + 3][0] == out[m];
      }
    }
  }

  /** Stripping keeps a prefix that has no whitespace. */
  lemma {:induction false} StripKeepsPrefix(s: string, p: string)
    requires p != [] && p <= s
    requires forall c :: c in p ==> !IsSpace(c)
    ensures p <= Strip(s)
  {
    assert p[0] in p && p[|p| - 1] in p;
    assert s[0] == p[0] && s[|p| - 1] == p[|p| - 1];
    assert StripStart(s) == 0;
    assert StripEnd(s) >= |p|;
  }

  /** Past a prefix `a`, a slice of `s` still starts with what follows `a`. */
  lemma {:induction false} DropPrefix(s: string, a: string, b: string, e: nat)
    requires a + b <= s && |a| + |b| <= e <= |s|
    ensures b <= s[|a|..e]
  {
    forall m | 0 <= m < |b| ensures s[|a|..e][m] == b[m] {
      assert s[|a| + m] == (a + b)[|a| + m];
    }
  }

  /** An answer that opens with ```` ``` ```` and a tag free of ticks and
    * whitespace: the first fence is at 0 and its text starts with the tag. */
  lemma {:induction false} OpenTag(out: string, tag: string)
    requires tag != [] && Tick + tag <= out
    requires forall k :: 0 <= k < |tag| ==> tag[k] != '`' && !IsSpace(tag[k])
    ensures Find(out, Tick) == Some(0)
    ensures tag <= Strip(out[3..PieceEnd(out, Tick, 3)])
  {
    var k := 3 + |tag|;
    assert Tick <= out by {
      assert out[..3] == (Tick + tag)[..3];
    }
    forall m | 3 <= m < k ensures out[m] != '`' {
      assert out[m] == (Tick + tag)[m] == tag[m - 3];
    }
    OpeningTick(out, k);
    DropPrefix(out, Tick, tag, PieceEnd(out, Tick, 3));
    forall c | c in tag ensures !IsSpace(c) {
      var i :| 0 <= i < |tag| && tag[i] == c;
    }
    StripKeepsPrefix(out[3..PieceEnd(out, Tick, 3)], tag);
  }

  /** A tag in another case, such as ```` ```JSON ````, is not taken for
    * ```` ```json ````: only the ticks are removed and the tag stays. */
  lemma {:induction false} UpperCaseTagKept(response: string)
    requires StartsWith(Strip(response), Tick + "JSON")
    requires !Contains(Strip(response), JsonTick)
    ensures StartsWith(StripFences(response), "JSON")
  {
    var tag := "JSON";
    assert tag[0] == 'J' && tag[1] == 'S' && tag[2] == 'O' && tag[3] == 'N';
    OpenTag(Strip(response), tag);
    BareFenceBody(response);
  }

  /** Stripping keeps every occurrence of a text without whitespace. */
  lemma {:induction false} StripKeeps(s: string, p: string, i: nat)
    requires |p| > 0 && forall c :: c in p ==> !IsSpace(c)
    requires OccursAt(s, p, i)
    ensures Contains(Strip(s), p)
  {
    var lo, hi := StripStart(s), StripEnd(s);
    assert p[0] in p && p[|p| - 1] in p;
    assert s[i] == s[i..i + |p|][0];
    assert s[i + |p| - 1] == s[i..i + |p|][|p| - 1];
    assert !IsSpace(s[i]) && !IsSpace(s[i + |p| - 1]);
    assert lo <= i;
    assert i + |p| <= hi;
    SliceOfSlice(s, lo, hi, i - lo, i - lo + |p|);
    ContainsAt(Strip(s), p, i - lo);
  }

  /** When the answer holds a fence, the result holds none. */
  lemma {:induction false} NoTickLeft(response: string)
    requires Contains(response, Tick)
    ensures !Contains(StripFences(response), Tick)
  {
    StripKeeps(response, Tick, Find(response, Tick).value);
    var out := Strip(response);
    var a := if Contains(out, JsonTick) then SecondPiece(out, JsonTick) else After(out, Tick);
    var b := Before(a, Tick);
    BeforeFree(a, Tick);
    assert StripFences(response) == Strip(b);
    SliceFree(b, Tick, StripStart(b), StripEnd(b));
  }

  /** `r` is a contiguous piece of `s`. */
  predicate Substring(r: string, s: string) {
    exists lo: nat, hi: nat :: lo <= hi <= |s| && r == s[lo..hi]
  }

  lemma {:induction false} SliceSubstring(s: string, lo: nat, hi: nat)
    requires lo <= hi <= |s|
    ensures Substring(s[lo..hi], s)
  {
  }

  lemma {:induction false} SubstringTrans(r: string, t: string, s: string)
    requires Substring(r, t) && Substring(t, s)
    ensures Substring(r, s)
  {
    var a: nat, b: nat :| a <= b <= |t| && r == t[a..b];
    var c: nat, d: nat :| c <= d <= |s| && t == s[c..d];
    SliceOfSlice(s, c, d, a, b);
  }

  lemma {:induction false} StripSubstring(s: string)
    ensures Substring(Strip(s), s)
  {
    SliceSubstring(s, StripStart(s), StripEnd(s));
  }

  lemma {:induction false} BeforeSubstring(s: string, sep: string)
    ensures Substring(Before(s, sep), s)
  {
    SliceSubstring(s, 0, |Before(s, sep)|);
  }

  /** The piece between the first `tag` and the next `sep` is a contiguous
    * piece of `out`. */
  lemma {:induction false} FencedSubstring(out: string, tag: string, sep: string)
    requires Contains(out, tag)
    ensures Substring(Before(After(out, tag), sep), out)
  {
    FencedSlice(out, tag, sep);
    var from := Find(out, tag).value + |tag|;
    SliceSubstring(out, from, PieceEnd(out, sep, from));
  }

  /** The result is a contiguous piece of the answer. */
  lemma {:induction false} StripFencesSubstring(response: string)
    ensures Substring(StripFences(response), response)
  {
    var out := Strip(response);
    StripSubstring(response);
    if Contains(out, JsonTick) {
      var a := SecondPiece(out, JsonTick);
      var b := Before(a, Tick);
      FencedSubstring(out, JsonTick, JsonTick);
      BeforeSubstring(a, Tick);
      StripSubstring(b);
      SubstringTrans(b, a, out);
      SubstringTrans(Strip(b), b, out);
      SubstringTrans(StripFences(response), out, response);
    } else if Contains(out, Tick) {
      var b := SecondPiece(out, Tick);
      FencedSubstring(out, Tick, Tick);
      StripSubstring(b);
      SubstringTrans(Strip(b), b, out);
      SubstringTrans(StripFences(response), out, response);
    }
  }
}
