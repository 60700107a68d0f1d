/**
 * The scoring and file-naming helpers of the ETL quality report:
 * `calculate_reliability` and `extract_bank_fund_name`.
 */
module Report {
  import opened Wrappers
  import opened Text
  import opened Json
  import opened Compare
  import opened CompareLemmas

  // ---------------------------------------------------------------------
  // calculate_reliability

  function MaxReal(a: real, b: real): real {
    if a >= b then a else b
  }

  /** `calculate_reliability(total_fields, differences_count)`, on exact reals. */
  function Reliability(totalFields: int, differencesCount: int): (r: real)
    ensures totalFields == 0 ==> r == 0.0
    ensures totalFields != 0 && differencesCount == 0 ==> r == 100.0
    ensures r >= 0.0
    ensures totalFields > 0 && differencesCount >= 0 ==> r <= 100.0
    ensures totalFields > 0 && differencesCount >= totalFields ==> r == 0.0
  {
    if totalFields == 0 then 0.0
    else MaxReal(0.0, 1.0 - differencesCount as real / totalFields as real) * 100.0
  }

  /** More differences never raise the score. */
  lemma {:induction false} ReliabilityMonotone(totalFields: int, fewer: int, more: int)
    requires totalFields > 0 && fewer <= more
    ensures Reliability(totalFields, more) <= Reliability(totalFields, fewer)
  {
    var t := totalFields as real;
    assert more as real / t >= fewer as real / t by {
      assert (more as real - fewer as real) / t >= 0.0;
    }
  }

  /** A non-empty file compared with itself scores 100. */
  lemma {:induction false} SelfReliability(f: map<string, Json>)
    requires FileDiffs(f, f).Some?
    requires FieldCount(Obj(f)) > 0
    ensures Reliability(FieldCount(Obj(f)), |FileDiffs(f, f).value|) == 100.0
  {
    SelfFileDiffsEmpty(f);
  }

  // ---------------------------------------------------------------------
  // extract_bank_fund_name

  const Tail: string := "_raw_transformed.json"
  const TestTail: string := "_raw_transformed_PRUEBA.json"

  /** What the pattern `_raw_transformed(?:_PRUEBA)?\.json$` may match at
    * the end of a name: `$` also matches just before a final newline. */
  predicate IsTail(t: string) {
    t == Tail || t == Tail + "\n" || t == TestTail || t == TestTail + "\n"
  }

  /** The length of the accepted ending of `name`, if it has one. */
  function TailLength(name: string): (r: Option<nat>)
    ensures r.Some? ==> r.value <= |name| && IsTail(name[|name| - r.value..])
  {
    if EndsWith(name, TestTail) then Some(|TestTail|)
    else if EndsWith(name, TestTail + "\n") then Some(|TestTail| + 1)
    else if EndsWith(name, Tail) then Some(|Tail|)
    else if EndsWith(name, Tail + "\n") then Some(|Tail| + 1)
    else None
  }

  /** The first `_` at an index `i >= from` that leaves a non-empty text
    * after it: where the lazy `(.+?)_` stops. */
  function FirstSeparator(p: string, from: nat): (r: Option<nat>)
    requires from >= 1
    ensures r.Some? ==> from <= r.value && r.value + 1 < |p| && p[r.value] == '_'
    ensures r.Some? ==> forall k :: from <= k < r.value ==> p[k] != '_'
    ensures r.None? ==> forall k :: from <= k && k + 1 < |p| ==> p[k] != '_'
    decreases |p| - from
  {
    if from + 1 >= |p| then None
    else if p[from] == '_' then Some(from)
    else FirstSeparator(p, from + 1)
  }

  lemma {:induction false} FirstSeparatorIs(p: string, from: nat, i: nat)
    requires 1 <= from <= i && i + 1 < |p| && p[i] == '_'
    requires forall k :: from <= k < i ==> p[k] != '_'
    ensures FirstSeparator(p, from) == Some(i)
    decreases i - from
  {
    if from < i {
      FirstSeparatorIs(p, from + 1, i);
    }
  }

  /** `extract_bank_fund_name(filename)`: `re.match` of
    * `^(.+?)_(.+?)_raw_transformed(?:_PRUEBA)?\.json$`, whose dots do
    * not match a newline. */
  function ExtractBankFund(name: string): Option<(string, string)> {
    match TailLength(name)
    case None => None
    case Some(n) => BankFund(name[..|name| - n])
  }

  /** The two lazy groups matched in what precedes the ending. */
  function BankFund(p: string): Option<(string, string)> {
    if '\n' in p then None
    else
      match FirstSeparator(p, 1)
      case None => None
      case Some(i) => Some((p[..i], p[i + 1..]))
  }

  /** A match splits the name into a non-empty bank, `_`, a non-empty fund
    * and an accepted ending; neither part has a newline, and the bank is
    * the shortest such prefix: it has no `_` after its first character. */
  lemma {:induction false} ExtractBankFundSound(name: string)
    requires ExtractBankFund(name).Some?
    ensures var (bank, fund) := ExtractBankFund(name).value;
      && bank != [] && fund != []
      && '\n' !in bank && '\n' !in fund
      && (forall k :: 1 <= k < |bank| ==> bank[k] != '_')
      && exists t :: IsTail(t) && name == bank + "_" + fund + t
  {
    var n := TailLength(name).value;
    var p, t := name[..|name| - n], name[|name| - n..];
    assert name == p + t;
    BankFundSound(p);
  }

  /** What the groups are when they match. */
  lemma {:induction false} BankFundSound(p: string)
    requires BankFund(p).Some?
    ensures var (bank, fund) := BankFund(p).value;
      && bank != [] && fund != []
      && '\n' !in bank && '\n' !in fund
      && (forall k :: 1 <= k < |bank| ==> bank[k] != '_')
      && p == bank + "_" + fund
  {
    SeparatorSplit(p, FirstSeparator(p, 1).value);
  }

  /** Cutting a newline-free text at its first separator. */
  lemma {:induction false} SeparatorSplit(p: string, i: nat)
    requires '\n' !in p && FirstSeparator(p, 1) == Some(i)
    ensures p[..i] != [] && p[i + 1..] != []
    ensures '\n' !in p[..i] && '\n' !in p[i + 1..]
    ensures forall k :: 1 <= k < |p[..i]| ==> p[..i][k] != '_'
    ensures p == p[..i] + "_" + p[i + 1..]
  {
    assert forall k :: 1 <= k < i ==> p[..i][k] == p[k];
    SliceKeepsOut(p, 0, i, '\n');
    SliceKeepsOut(p, i + 1, |p|, '\n');
    assert p[..i] + "_" + p[i + 1..] == p[..i] + p[i..i + 1] + p[i + 1..];
    assert p[..i] + p[i..i + 1] + p[i + 1..] == p;
  }

  /** A character missing from a text is missing from each of its slices. */
  lemma {:induction false} SliceKeepsOut(p: string, lo: nat, hi: nat, c: char)
    requires lo <= hi <= |p| && c !in p
    ensures c !in p[lo..hi]
  {
    assert forall k :: 0 <= k < hi - lo ==> p[lo..hi][k] == p[lo + k];
  }

  /** Every such decomposition is found. */
  lemma {:induction false} ExtractBankFundComplete(bank: string, fund: string, t: string)
    requires bank != [] && fund != []
    requires '\n' !in bank && '\n' !in fund
    requires forall k :: 1 <= k < |bank| ==> bank[k] != '_'
    requires IsTail(t)
    ensures ExtractBankFund(bank + "_" + fund + t) == Some((bank, fund))
  {
    var p := bank + "_" + fund;
    var name := p + t;
    TailOf(p, t);
    assert name[..|name| - |t|] == p;
    assert p[|bank|] == '_';
    assert forall k :: 1 <= k < |bank| ==> p[k] == bank[k];
    assert p[..|bank|] == bank && p[|bank| + 1..] == fund;
    forall k | 0 <= k < |p| ensures p[k] != '\n' {
      if k < |bank| {
        assert p[k] == bank[k];
      } else if k > |bank| {
        assert p[k] == fund[k - |bank| - 1];
      }
    }
    assert '\n' !in p;
    FirstSeparatorIs(p, 1, |bank|);
    assert ExtractBankFund(name) == Some((p[..|bank|], p[|bank| + 1..]));
  }

  /** A name whose `k`-th character from the end differs from that of `p`
    * does not end with `p`. */
  lemma {:induction false} NotEndsWith(s: string, p: string, k: nat)
    requires 1 <= k <= |p| && k <= |s| && s[|s| - k] != p[|p| - k]
    ensures !EndsWith(s, p)
  {
    if |p| <= |s| {
      assert s[|s| - |p|..][|p| - k] == s[|s| - k];
    }
  }

  /** The characters that tell the endings apart. */
  lemma {:induction false} TailChars()
    ensures |Tail| == 21 && |TestTail| == 28
    ensures Tail[20] == 'n' && TestTail[27] == 'n'
    ensures Tail[15] == 'd' && TestTail[22] == 'A'
  {
  }

  lemma {:induction false} TailOfTest(p: string)
    ensures TailLength(p + TestTail) == Some(|TestTail|)
  {
    EndsWithSuffix(p, TestTail);
  }

  lemma {:induction false} TailOfTestNewline(p: string)
    ensures TailLength(p + (TestTail + "\n")) == Some(|TestTail| + 1)
  {
    var t := TestTail + "\n";
    var name := p + t;
    TailChars();
    assert name[|name| - 1] == '\n';
    NotEndsWith(name, TestTail, 1);
    EndsWithSuffix(p, t);
  }

  lemma {:induction false} TailOfPlain(p: string)
    ensures TailLength(p + Tail) == Some(|Tail|)
  {
    var name := p + Tail;
    TailChars();
    if |name| >= |TestTail| {
      assert name[|name| - 6] == Tail[15];
      NotEndsWith(name, TestTail, 6);
    }
    assert name[|name| - 1] == 'n';
    NotEndsWith(name, TestTail + "\n", 1);
    EndsWithSuffix(p, Tail);
  }

  lemma {:induction false} TailOfPlainNewline(p: string)
    ensures TailLength(p + (Tail + "\n")) == Some(|Tail| + 1)
  {
    var t := Tail + "\n";
    var name := p + t;
    TailChars();
    assert name[|name| - 1] == '\n';
    NotEndsWith(name, TestTail, 1);
    NotEndsWith(name, Tail, 1);
    if |name| >= |TestTail| + 1 {
      assert name[|name| - 7] == Tail[15];
      assert (TestTail + "\n")[22] == 'A';
      NotEndsWith(name, TestTail + "\n", 7);
    }
    EndsWithSuffix(p, t);
  }

  /** The accepted endings are told apart by the end of the name. */
  lemma {:induction false} TailOf(p: string, t: string)
    requires IsTail(t)
    ensures TailLength(p + t) == Some(|t|)
  {
    if t == TestTail {
      TailOfTest(p);
    } else if t == TestTail + "\n" {
      TailOfTestNewline(p);
    } else if t == Tail {
      TailOfPlain(p);
    } else {
      TailOfPlainNewline(p);
    }
  }
}
