/**
 * The skip list shared by the transform and load scripts: the writer
 * `create_skip_list_from_validation`, the reader `read_skip_list`, the
 * `--skip-files` option of the load script, and the round trip between
 * what the writer emits and what the reader returns.
 */
module SkipList {
  import opened Wrappers
  import opened Text

  const Suffix: string := "_transformed.json"
  // The two header lines are written as concatenations of short literals:
  // the verifier reads the characters of a short literal directly, which
  // FirstHeaderLine and SecondHeaderLine below need, but not of one this long.
  const Header1: string := "# Lista de " + "archivos con " + "fechas no " + "coincidentes"
  const Header2: string := "# Generado " + "automáticamente " + "desde " + "validación " + "de fechas"

  // ---------------------------------------------------------------------
  // create_skip_list_from_validation

  /** `filename.replace('_transformed.json', '')`. */
  function BaseName(name: string): string {
    Replace(name, Suffix, "")
  }

  /** One line per name, each base name followed by a newline. */
  function Body(names: seq<string>): string {
    if names == [] then "" else BaseName(names[0]) + "\n" + Body(names[1..])
  }

  /** The text the writer leaves in the file: two `#` header lines, a
    * blank line, then one base name per line in list order. */
  function SkipListText(names: seq<string>): string {
    Header1 + "\n" + Header2 + "\n" + "\n" + Body(names)
  }

  lemma {:induction false} BodyAppend(names: seq<string>, n: string)
    ensures Body(names + [n]) == Body(names) + BaseName(n) + "\n"
  {
    if names == [] {
      assert [n][1..] == [];
    } else {
      assert (names + [n])[1..] == names[1..] + [n];
      BodyAppend(names[1..], n);
    }
  }

  /** The writer's loop over the mismatched names, writing into a string
    * that stands for the file. */
  method WriteSkipList(mismatched: seq<string>) returns (text: string)
    ensures text == SkipListText(mismatched)
  {
    text := Header1 + "\n";
    text := text + Header2 + "\n" + "\n";
    var i := 0;
    while i < |mismatched|
      invariant i <= |mismatched|
      invariant text == Header1 + "\n" + Header2 + "\n" + "\n" + Body(mismatched[..i])
    {
      BodyAppend(mismatched[..i], mismatched[i]);
      assert mismatched[..i + 1] == mismatched[..i] + [mismatched[i]];
      text := text + BaseName(mismatched[i]) + "\n";
      i := i + 1;
    }
    assert mismatched[..i] == mismatched;
  }

  // ---------------------------------------------------------------------
  // read_skip_list

  /** The skip-list file: absent, failing part-way through with the text
    * decoded before the error, or read in full. */
  datatype TextFile = Absent | Unreadable(readBefore: string) | Contents(text: string)

  /** Text-mode reading: `\r\n` and a lone `\r` both become `\n`. */
  function Translate(t: string): (r: string)
    ensures '\r' !in t ==> r == t
    decreases |t|
  {
    if t == [] then []
    else if t[0] == '\r' then
      if |t| > 1 && t[1] == '\n' then "\n" + Translate(t[2..]) else "\n" + Translate(t[1..])
    else [t[0]] + Translate(t[1..])
  }

  /** The lines `for line in f` yields, without their newlines (plus a
    * final empty piece when the text ends with a newline, which the
    * reader ignores as it ignores every empty line). */
  function Lines(text: string): seq<string> {
    Split(Translate(text), '\n')
  }

  /** A line the reader keeps: not empty and not a `#` comment once stripped. */
  predicate Kept(line: string) {
    var s := Strip(line);
    s != "" && !StartsWith(s, "#")
  }

  /** The file-name normalisation of the reader and of `--skip-files`. */
  function Normalize(name: string): string {
    if !EndsWith(name, ".json") then name + Suffix
    else Replace(name, ".json", Suffix)
  }

  /** The name a line contributes, if it is kept. */
  function Entry(line: string): Option<string> {
    if Kept(line) then Some(Normalize(Strip(line))) else None
  }

  /** The names a run of lines or items contributes: each gives at most
    * one name, through `entry`. */
  function Collect(entry: string -> Option<string>, xs: seq<string>): set<string> {
    if xs == [] then {}
    else
      var e := entry(xs[|xs| - 1]);
      Collect(entry, xs[..|xs| - 1]) + (if e.Some? then {e.value} else {})
  }

  lemma {:induction false} CollectStep(entry: string -> Option<string>, xs: seq<string>, i: nat)
    requires i < |xs|
    ensures var e := entry(xs[i]);
      Collect(entry, xs[..i + 1]) == Collect(entry, xs[..i]) + (if e.Some? then {e.value} else {})
  {
    assert xs[..i + 1][..i] == xs[..i];
  }

  /** A name is collected exactly when some element gives it. */
  lemma {:induction false} CollectExactly(entry: string -> Option<string>, xs: seq<string>, n: string)
    ensures n in Collect(entry, xs) <==> exists i :: 0 <= i < |xs| && entry(xs[i]) == Some(n)
  {
    if xs != [] {
      var k := |xs| - 1;
      var front := xs[..k];
      CollectExactly(entry, front, n);
      assert forall i :: 0 <= i < k ==> front[i] == xs[i];
      assert (exists i :: 0 <= i < |xs| && entry(xs[i]) == Some(n))
        <==> (exists i :: 0 <= i < k && entry(front[i]) == Some(n)) || entry(xs[k]) == Some(n);
    }
  }

  lemma {:induction false} CollectConcat(entry: string -> Option<string>, a: seq<string>, b: seq<string>)
    ensures Collect(entry, a + b) == Collect(entry, a) + Collect(entry, b)
    decreases |b|
  {
    if b == [] {
      assert a + b == a;
    } else {
      var k := |b| - 1;
      assert (a + b)[..|a + b| - 1] == a + b[..k];
      CollectConcat(entry, a, b[..k]);
    }
  }

  /** The names the reader collects from `lines`. */
  function SkipNames(lines: seq<string>): set<string> {
    Collect(Entry, lines)
  }

  /** What `read_skip_list` returns: nothing for a missing file or a read
    * error, even when some names were collected before the error. */
  function SkipListNames(file: TextFile): set<string> {
    match file
    case Absent => {}
    case Unreadable(_) => {}
    case Contents(text) => SkipNames(Lines(text))
  }

  /** `read_skip_list(path)`. */
  method ReadSkipList(file: TextFile) returns (names: set<string>)
    ensures names == SkipListNames(file)
  {
    names := {};
    if file.Absent? {
      return;
    }
    var text := if file.Contents? then file.text else file.readBefore;
    var lines := Lines(text);
    var i := 0;
    while i < |lines|
      invariant i <= |lines|
      invariant names == SkipNames(lines[..i])
    {
      SkipNamesStep(lines, i);
      ghost var e := Entry(lines[i]);
      var filename := Strip(lines[i]);
      if filename != "" && !StartsWith(filename, "#") {
        filename := Normalize(filename);
        assert e == Some(filename);
        names := names + {filename};
      } else {
        assert e == None;
      }
      i := i + 1;
    }
    if file.Unreadable? {
      return {};
    }
    assert lines[..i] == lines;
  }

  lemma {:induction false} SkipNamesStep(lines: seq<string>, i: nat)
    requires i < |lines|
    ensures var e := Entry(lines[i]);
      SkipNames(lines[..i + 1]) == SkipNames(lines[..i]) + (if e.Some? then {e.value} else {})
  {
    CollectStep(Entry, lines, i);
  }

  /** A name is read exactly when some kept line normalises to it. */
  lemma {:induction false} SkipNamesExactly(lines: seq<string>, n: string)
    ensures n in SkipNames(lines) <==> exists i :: 0 <= i < |lines| && Entry(lines[i]) == Some(n)
  {
    CollectExactly(Entry, lines, n);
  }

  lemma {:induction false} SkipNamesConcat(a: seq<string>, b: seq<string>)
    ensures SkipNames(a + b) == SkipNames(a) + SkipNames(b)
  {
    CollectConcat(Entry, a, b);
  }

  // ---------------------------------------------------------------------
  // --skip-files

  /** The name one `--skip-files` item contributes: stripped, dropped when
    * empty (there is no `#` test here), normalised. */
  function CommandEntry(item: string): Option<string> {
    var s := Strip(item);
    if s != "" then Some(Normalize(s)) else None
  }

  /** The names `--skip-files` contributes. */
  function CommandNames(items: seq<string>): set<string> {
    Collect(CommandEntry, items)
  }

  lemma {:induction false} CommandNamesStep(items: seq<string>, i: nat)
    requires i < |items|
    ensures var e := CommandEntry(items[i]);
      CommandNames(items[..i + 1]) == CommandNames(items[..i]) + (if e.Some? then {e.value} else {})
  {
    CollectStep(CommandEntry, items, i);
  }

  lemma {:induction false} CommandNamesExactly(items: seq<string>, n: string)
    ensures n in CommandNames(items) <==> exists i :: 0 <= i < |items| && CommandEntry(items[i]) == Some(n)
  {
    CollectExactly(CommandEntry, items, n);
  }

  /** The loop over the comma-separated items of `--skip-files`. */
  method ReadSkipFiles(items: seq<string>) returns (names: set<string>)
    ensures names == CommandNames(items)
  {
    names := {};
    var i := 0;
    while i < |items|
      invariant i <= |items|
      invariant names == CommandNames(items[..i])
    {
      CommandNamesStep(items, i);
      ghost var e := CommandEntry(items[i]);
      var filename := Strip(items[i]);
      if filename != "" {
        filename := Normalize(filename);
        assert e == Some(filename);
        names := names + {filename};
      } else {
        assert e == None;
      }
      i := i + 1;
    }
    assert items[..i] == items;
  }

  /** The skip set of the load script: the names read from `--skip-list`
    * (when given) together with those of `--skip-files` (when given). */
  method BuildSkipSet(skipList: Option<TextFile>, skipFiles: Option<string>) returns (skip: set<string>)
    ensures skip ==
      (if skipList.Some? then SkipListNames(skipList.value) else {})
      + (if skipFiles.Some? then CommandNames(Split(skipFiles.value, ',')) else {})
  {
    skip := {};
    if skipList.Some? {
      var fromFile := ReadSkipList(skipList.value);
      skip := skip + fromFile;
    }
    if skipFiles.Some? {
      var fromOption := ReadSkipFiles(Split(skipFiles.value, ','));
      skip := skip + fromOption;
    }
  }

  // ---------------------------------------------------------------------
  // Normalisation and the round trip

  /** No occurrence of `pat` starts inside `x` in `x + y` when `x` does not
    * contain `pat` and `y` starts with a character `pat` has only first. */
  lemma {:induction false} NoEarlyOccurrence(x: string, y: string, pat: string)
    requires |pat| > 0 && y != []
    requires !Contains(x, pat)
    requires y[0] !in pat[1..]
    ensures forall k: nat :: k < |x| ==> !OccursAt(x + y, pat, k)
  {
    forall k: nat | k < |x| ensures !OccursAt(x + y, pat, k) {
      if k + |pat| <= |x| {
        assert (x + y)[k..k + |pat|] == x[k..k + |pat|];
        assert !OccursAt(x, pat, k);
      } else {
        var d := |x| - k;
        assert pat[1..][d - 1] == pat[d];
        if k + |pat| <= |x + y| {
          assert (x + y)[k..k + |pat|][d] == y[0];
        }
      }
    }
  }

  lemma {:induction false} ReplaceWhole(pat: string, rep: string)
    requires |pat| > 0
    ensures Replace(pat, pat, rep) == rep
  {
    assert pat[..|pat|] == pat;
    assert Replace(pat[|pat|..], pat, rep) == [];
  }

  /** The writer turns `X_transformed.json` back into `X` when `X` holds
    * no `_transformed.json` of its own. */
  lemma {:induction false} BaseNameOf(x: string)
    requires !Contains(x, Suffix)
    ensures BaseName(x + Suffix) == x
  {
    assert Suffix[1..] == "transformed.json";
    NoEarlyOccurrence(x, Suffix, Suffix);
    ReplaceAfterPrefix(x, Suffix, Suffix, "");
    ReplaceWhole(Suffix, "");
  }

  /** A kept name ending in `.json` has its `.json` replaced: with a single
    * `.json` at the end, `y.json` becomes `y_transformed.json`, so
    * `x_transformed.json` becomes `x_transformed_transformed.json`. */
  lemma {:induction false} NormalizeJsonName(y: string)
    requires '.' !in y
    ensures Normalize(y + ".json") == y + Suffix
  {
    var s := y + ".json";
    assert s[|s| - 5..] == ".json";
    forall k: nat | k < |y| ensures !OccursAt(s, ".json", k) {
      assert s[k] == y[k];
    }
    ReplaceAfterPrefix(y, ".json", ".json", Suffix);
    ReplaceWhole(".json", Suffix);
  }

  /** Names the writer and the reader agree on. */
  predicate Writable(x: string) {
    && x != [] && Stripped(x)
    && '\n' !in x && '\r' !in x
    && x[0] != '#'
    && !EndsWith(x, ".json")
    && !Contains(x, Suffix)
  }

  lemma {:induction false} BodyLines(xs: seq<string>, names: seq<string>)
    requires |names| == |xs|
    requires forall i :: 0 <= i < |xs| ==> names[i] == xs[i] + Suffix && Writable(xs[i])
    ensures '\r' !in Body(names)
    ensures Split(Body(names), '\n') == xs + [""]
  {
    if names != [] {
      BaseNameOf(xs[0]);
      BodyLines(xs[1..], names[1..]);
      var rest := Body(names[1..]);
      assert Body(names) == xs[0] + ['\n'] + rest;
      SplitCons(xs[0], '\n', rest);
      assert xs == [xs[0]] + xs[1..];
    }
  }

  lemma {:induction false} ReadBackBody(xs: seq<string>)
    requires forall i :: 0 <= i < |xs| ==> Writable(xs[i])
    ensures SkipNames(xs) == set i | 0 <= i < |xs| :: xs[i] + Suffix
  {
    if xs != [] {
      var k := |xs| - 1;
      assert forall i :: 0 <= i < k ==> xs[..k][i] == xs[i];
      ReadBackBody(xs[..k]);
      assert Strip(xs[k]) == xs[k];
      assert (set i | 0 <= i < |xs| :: xs[i] + Suffix) ==
        (set i | 0 <= i < k :: xs[..k][i] + Suffix) + {xs[k] + Suffix};
    }
  }

  /** A line of the writer's header: a `#` comment with no line break and
    * no surrounding whitespace. */
  predicate HeaderLine(h: string) {
    h != [] && h[0] == '#' && Stripped(h) && '\n' !in h && '\r' !in h
  }

  /** A text with no line break at any index holds none. */
  lemma {:induction false} BreakFree(h: string)
    requires forall k :: 0 <= k < |h| ==> h[k] != '\n' && h[k] != '\r'
    ensures '\n' !in h && '\r' !in h
  {
  }

  lemma {:induction false} FirstHeaderLine()
    ensures HeaderLine(Header1)
  {
    BreakFree(Header1);
    assert Header1[0] == '#' && Header1[|Header1| - 1] == 's';
  }

  lemma {:induction false} SecondHeaderLine()
    ensures HeaderLine(Header2)
  {
    BreakFree(Header2);
    assert Header2[0] == '#' && Header2[|Header2| - 1] == 's';
  }

  lemma {:induction false} HeadersAreHeaderLines()
    ensures HeaderLine(Header1) && HeaderLine(Header2)
  {
    FirstHeaderLine();
    SecondHeaderLine();
  }

  /** Splitting `x + "\n" + rest` peels `x` off the front. */
  lemma {:induction false} SplitLine(x: string, rest: string, tail: seq<string>)
    requires '\n' !in x
    requires Split(rest, '\n') == tail
    ensures Split(x + "\n" + rest, '\n') == [x] + tail
  {
    SplitCons(x, '\n', rest);
  }

  lemma {:induction false} BlankSplit(h2: string, body: string)
    requires '\n' !in h2
    ensures Split(h2 + "\n" + "\n" + body, '\n') == [h2, ""] + Split(body, '\n')
  {
    var r := "\n" + body;
    var p := Split(body, '\n');
    assert "" + "\n" + body == r;
    SplitLine("", body, p);
    assert h2 + "\n" + r == h2 + "\n" + "\n" + body;
    SplitLine(h2, r, [""] + p);
    ConsTwo(h2, p);
  }

  lemma {:induction false} ConsTwo(h2: string, p: seq<string>)
    ensures [h2] + ([""] + p) == [h2, ""] + p
  {
  }

  lemma {:induction false} HeaderSplit(h1: string, h2: string, body: string)
    requires '\n' !in h1 && '\n' !in h2
    ensures Split(h1 + "\n" + h2 + "\n" + "\n" + body, '\n') == [h1, h2, ""] + Split(body, '\n')
  {
    var r := h2 + "\n" + "\n" + body;
    BlankSplit(h2, body);
    assert h1 + "\n" + r == h1 + "\n" + h2 + "\n" + "\n" + body;
    var p := Split(body, '\n');
    SplitLine(h1, r, [h2, ""] + p);
    ConsThree(h1, h2, p);
  }

  lemma {:induction false} ConsThree(h1: string, h2: string, p: seq<string>)
    ensures [h1] + ([h2, ""] + p) == [h1, h2, ""] + p
  {
  }

  lemma {:induction false} HeaderNotKept(h: string)
    requires HeaderLine(h)
    ensures Entry(h) == None
  {
    assert Strip(h) == h;
    assert StartsWith(h, "#") by {
      assert h[..1] == "#";
    }
  }

  lemma {:induction false} HeadersNotKept(h1: string, h2: string)
    requires HeaderLine(h1) && HeaderLine(h2)
    ensures SkipNames([h1, h2, ""]) == {}
  {
    HeaderNotKept(h1);
    HeaderNotKept(h2);
    assert Entry("") == None;
    var hs := [h1, h2, ""];
    assert hs[..0] == [] && hs[..3] == hs;
    SkipNamesStep(hs, 0);
    SkipNamesStep(hs, 1);
    SkipNamesStep(hs, 2);
  }

  lemma {:induction false} NoCarriage(h1: string, h2: string, body: string)
    requires '\r' !in h1 && '\r' !in h2 && '\r' !in body
    ensures '\r' !in h1 + "\n" + h2 + "\n" + "\n" + body
  {
  }

  /** The lines the reader sees in the writer's text: the two headers, the
    * blank line, one line per base name, and the final empty piece. */
  lemma {:induction false} TextLines(xs: seq<string>, names: seq<string>)
    requires |names| == |xs|
    requires forall i :: 0 <= i < |xs| ==> names[i] == xs[i] + Suffix && Writable(xs[i])
    ensures Lines(SkipListText(names)) == [Header1, Header2, ""] + (xs + [""])
  {
    var body := Body(names);
    BodyLines(xs, names);
    HeadersAreHeaderLines();
    NoCarriage(Header1, Header2, body);
    HeaderSplit(Header1, Header2, body);
  }

  lemma {:induction false} SuffixedNames(xs: seq<string>, names: seq<string>)
    requires |names| == |xs|
    requires forall i :: 0 <= i < |xs| ==> names[i] == xs[i] + Suffix
    ensures (set i | 0 <= i < |names| :: names[i]) == (set i | 0 <= i < |xs| :: xs[i] + Suffix)
  {
  }

  /** Round trip: a list of mismatched names `X_transformed.json` written
    * by the writer is read back as exactly the set of those names. */
  lemma {:induction false} SkipListRoundTrip(xs: seq<string>, names: seq<string>)
    requires |names| == |xs|
    requires forall i :: 0 <= i < |xs| ==> names[i] == xs[i] + Suffix && Writable(xs[i])
    ensures SkipListNames(Contents(SkipListText(names))) == set i | 0 <= i < |names| :: names[i]
  {
    TextLines(xs, names);
    HeadersAreHeaderLines();
    HeadersNotKept(Header1, Header2);
    SkipNamesConcat([Header1, Header2, ""], xs + [""]);
    SkipNamesConcat(xs, [""]);
    assert SkipNames([""]) == {} by {
      assert Entry("") == None;
      assert [""][..0] == [] && [""][..1] == [""];
      SkipNamesStep([""], 0);
    }
    ReadBackBody(xs);
    SuffixedNames(xs, names);
  }
}
