/**
 * The date-consistency check of the transform script: the (year, month) of
 * a `*_YYYY_M[M]` folder name, the (year, month) of `fic.fecha_corte`, their
 * comparison, and the tally over a folder of transformed files.
 */
module DateCheck {
  import opened Wrappers
  import opened Text
  import opened Json

  // ---------------------------------------------------------------------
  // extract_date_from_folder_name

  predicate IsSep(c: char) {
    c == '_' || c == '-'
  }

  /** `$` matches at the very end or just before a final newline. */
  function DropFinalNewline(s: string): (r: string)
    ensures r == s || s == r + "\n"
    ensures r == s <==> s == [] || s[|s| - 1] != '\n'
  {
    if |s| > 0 && s[|s| - 1] == '\n' then s[..|s| - 1] else s
  }

  /** The groups of `re.search(r'.*?[_-]?(\d{4})[_-](\d{1,2})$', name)`
    * and the separator between them. Only the end of the name matters:
    * the lazy prefix and the optional separator before the year can
    * always be satisfied, and `\d{1,2}` is tried with two digits first. */
  function FolderParts(name: string): (r: Option<(string, char, string)>)
    ensures r.Some? ==> AllDigits(r.value.0) && AllDigits(r.value.2)
  {
    var t := DropFinalNewline(name);
    var n := |t|;
    if n >= 7 && FourDigitsAt(t, n - 7) && IsSep(t[n - 3]) && IsDigit(t[n - 2]) && IsDigit(t[n - 1]) then
      Some((t[n - 7..n - 3], t[n - 3], t[n - 2..]))
    else if n >= 6 && FourDigitsAt(t, n - 6) && IsSep(t[n - 2]) && IsDigit(t[n - 1]) then
      Some((t[n - 6..n - 2], t[n - 2], t[n - 1..]))
    else None
  }

  /** `\d{4}` at index `i` of `t`. */
  predicate FourDigitsAt(t: string, i: nat)
    requires i + 4 <= |t|
  {
    IsDigit(t[i]) && IsDigit(t[i + 1]) && IsDigit(t[i + 2]) && IsDigit(t[i + 3])
  }

  /** `extract_date_from_folder_name(name)`: the `int` of both groups;
    * `None` stands for `(None, None)`. */
  function FolderDate(name: string): Option<(int, int)> {
    match FolderParts(name)
    case None => None
    case Some((y4, _, md)) => Some((DigitsValue(y4), DigitsValue(md)))
  }

  /** The name ends with four digits `y4`, a separator and one or two
    * digits `md`, optionally followed by one newline. */
  predicate FolderShape(name: string, y4: string, sep: char, md: string) {
    && |y4| == 4 && AllDigits(y4) && IsSep(sep) && 1 <= |md| <= 2 && AllDigits(md)
    && (EndsWith(name, y4 + [sep] + md) || EndsWith(name, y4 + [sep] + md + "\n"))
  }

  /** Four digits, a separator and the rest, read off the end of `t`. */
  lemma {:induction false} ThreeParts(t: string, a: nat)
    requires a + 5 <= |t|
    ensures t[a..a + 4] + [t[a + 4]] + t[a + 5..] == t[a..]
  {
    assert t[a..] == t[a..a + 4] + t[a + 4..];
    assert t[a + 4..] == [t[a + 4]] + t[a + 5..];
  }

  /** A name that ends with `tail` once its final newline is dropped ends
    * with `tail` or with `tail + "\n"`. */
  lemma {:induction false} RestoreNewline(name: string, tail: string)
    requires EndsWith(DropFinalNewline(name), tail)
    ensures EndsWith(name, tail) || EndsWith(name, tail + "\n")
  {
    var t := DropFinalNewline(name);
    if t != name {
      assert name == t + "\n";
      assert name[|name| - |tail| - 1..] == t[|t| - |tail|..] + "\n";
    }
  }

  /** Groups are found only in a name of that shape; the month is not
    * range-checked. */
  lemma {:induction false} FolderPartsSound(name: string)
    requires FolderParts(name).Some?
    ensures var (y4, sep, md) := FolderParts(name).value; FolderShape(name, y4, sep, md)
  {
    var (y4, sep, md) := FolderParts(name).value;
    var t := DropFinalNewline(name);
    var n := |t|;
    var a: nat := if |md| == 2 then n - 7 else n - 6;
    assert y4 == t[a..a + 4] && sep == t[a + 4] && md == t[a + 5..];
    ThreeParts(t, a);
    assert EndsWith(t, y4 + [sep] + md);
    RestoreNewline(name, y4 + [sep] + md);
  }

  lemma {:induction false} DropToTail(name: string, tail: string)
    requires tail != [] && tail[|tail| - 1] != '\n'
    requires EndsWith(name, tail) || EndsWith(name, tail + "\n")
    ensures EndsWith(DropFinalNewline(name), tail)
  {
    var t := DropFinalNewline(name);
    if EndsWith(name, tail) {
      assert name[|name| - 1] == tail[|tail| - 1];
      assert t == name;
    } else {
      var withNl := tail + "\n";
      var k := |name| - |withNl|;
      assert name[k..] == withNl;
      assert name[|name| - 1] == name[k..][|tail|] == '\n';
      assert name == t + "\n";
      assert t[|t| - |tail|..] == name[k..|name| - 1] == withNl[..|tail|];
    }
  }

  lemma {:induction false} TailParts(t: string, y4: string, sep: char, md: string)
    requires |y4| == 4 && AllDigits(y4) && IsSep(sep) && 1 <= |md| <= 2 && AllDigits(md)
    requires EndsWith(t, y4 + [sep] + md)
    ensures |md| == 2 ==> t[|t| - 7..|t| - 3] == y4 && t[|t| - 3] == sep && t[|t| - 2..] == md
    ensures |md| == 1 ==> t[|t| - 6..|t| - 2] == y4 && t[|t| - 2] == sep && t[|t| - 1..] == md
  {
    var tail := y4 + [sep] + md;
    assert t[|t| - |tail|..] == tail;
    assert tail[..4] == y4 && tail[4] == sep && tail[5..] == md;
  }

  /** Four digits `y4` copied into `t` at index `i`. */
  lemma {:induction false} FourDigitsCopy(t: string, i: nat, y4: string)
    requires i + 4 <= |t| && t[i..i + 4] == y4 && AllDigits(y4)
    ensures FourDigitsAt(t, i)
  {
    assert y4[0] == t[i] && y4[1] == t[i + 1] && y4[2] == t[i + 2] && y4[3] == t[i + 3];
  }

  lemma {:induction false} TwoDigitParts(name: string, y4: string, sep: char, md: string)
    requires AllDigits(y4) && IsSep(sep) && AllDigits(md)
    requires var t := DropFinalNewline(name);
      |t| >= 7 && t[|t| - 7..|t| - 3] == y4 && t[|t| - 3] == sep && t[|t| - 2..] == md
    ensures FolderParts(name) == Some((y4, sep, md))
  {
    var t := DropFinalNewline(name);
    var n := |t|;
    FourDigitsCopy(t, n - 7, y4);
    assert md[0] == t[n - 2] && md[1] == t[n - 1];
  }

  lemma {:induction false} OneDigitParts(name: string, y4: string, sep: char, md: string)
    requires AllDigits(y4) && IsSep(sep) && AllDigits(md)
    requires var t := DropFinalNewline(name);
      |t| >= 6 && t[|t| - 6..|t| - 2] == y4 && t[|t| - 2] == sep && t[|t| - 1..] == md
    ensures FolderParts(name) == Some((y4, sep, md))
  {
    var t := DropFinalNewline(name);
    var n := |t|;
    assert !IsDigit(t[n - 2]);
    FourDigitsCopy(t, n - 6, y4);
    assert md[0] == t[n - 1];
  }

  /** Every name of that shape yields exactly those groups. */
  lemma {:induction false} FolderPartsComplete(name: string, y4: string, sep: char, md: string)
    requires FolderShape(name, y4, sep, md)
    ensures FolderParts(name) == Some((y4, sep, md))
  {
    var tail := y4 + [sep] + md;
    DropToTail(name, tail);
    var t := DropFinalNewline(name);
    TailParts(t, y4, sep, md);
    if |md| == 2 {
      TwoDigitParts(name, y4, sep, md);
    } else {
      OneDigitParts(name, y4, sep, md);
    }
  }

  lemma {:induction false} FolderMonthParts()
    ensures FolderParts("x_2025_00") == Some(("2025", '_', "00"))
  {
    var t := "x_2025_00";
    assert DropFinalNewline(t) == t;
    assert FourDigitsAt(t, 2) && IsSep(t[6]) && IsDigit(t[7]) && IsDigit(t[8]);
    assert t[2..6] == "2025" && t[7..] == "00";
  }

  lemma {:induction false} Value2025()
    ensures AllDigits("2025") && DigitsValue("2025") == 2025
  {
    assert "2025"[..3] == "202" && "202"[..2] == "20" && "20"[..1] == "2" && "2"[..0] == "";
  }

  lemma {:induction false} Value00()
    ensures AllDigits("00") && DigitsValue("00") == 0
  {
    assert "00"[..1] == "0" && "0"[..0] == "";
  }

  /** `x_2025_00` gives month 0. */
  lemma {:induction false} FolderMonthUnchecked()
    ensures FolderDate("x_2025_00") == Some((2025, 0))
  {
    FolderMonthParts();
    Value2025();
    Value00();
  }

  // ---------------------------------------------------------------------
  // extract_date_from_json_data

  /** `fic.fecha_corte` when it is a non-empty string; `None` when the data
    * or its `fic` block is not a dict (the `AttributeError` the function
    * catches), when the field is missing, or when it is not a truthy str. */
  function Cutoff(data: Json): Option<string> {
    if !data.Obj? then None
    else
      var fic := Get(data.fields, "fic", Obj(map[]));
      if fic.Obj? && "fecha_corte" in fic.fields && fic.fields["fecha_corte"].Str?
         && fic.fields["fecha_corte"].s != ""
      then Some(fic.fields["fecha_corte"].s)
      else None
  }

  /** `extract_date_from_json_data(data)`: `None` stands for `(None, None)`. */
  function JsonDate(data: Json): (r: Option<(int, int)>)
    ensures r.Some? ==> Cutoff(data).Some? && |Split(Cutoff(data).value, '-')| >= 2
    ensures r.Some? ==> PyInt(Split(Cutoff(data).value, '-')[0]) == Some(r.value.0)
    ensures r.Some? ==> PyInt(Split(Cutoff(data).value, '-')[1]) == Some(r.value.1)
    ensures (Cutoff(data).Some? && |Split(Cutoff(data).value, '-')| >= 2
             && PyInt(Split(Cutoff(data).value, '-')[0]).Some?
             && PyInt(Split(Cutoff(data).value, '-')[1]).Some?) ==> r.Some?
  {
    match Cutoff(data)
    case None => None
    case Some(s) =>
      var parts := Split(s, '-');
      if |parts| < 2 then None
      else
        match (PyInt(parts[0]), PyInt(parts[1]))
        case (Some(y), Some(m)) => Some((y, m))
        case _ => None
  }

  /** A cut-off date without `-` gives no date. */
  lemma {:induction false} JsonDateNeedsDash(data: Json)
    requires Cutoff(data).Some? && '-' !in Cutoff(data).value
    ensures JsonDate(data).None?
  {
    SplitSingle(Cutoff(data).value, '-');
  }

  /** The first `-`-separated part of `x + rest` is `x`. */
  lemma {:induction false} SplitHead(x: string, rest: string)
    requires '-' !in x
    requires rest == [] || rest[0] == '-'
    ensures Split(x + rest, '-')[0] == x
  {
    if rest == [] {
      assert x + rest == x;
      SplitSingle(x, '-');
    } else {
      assert x + rest == x + ['-'] + rest[1..];
      SplitCons(x, '-', rest[1..]);
    }
  }

  /** The first two `-`-separated parts of `"<year>-<month>[-...]"`. */
  lemma {:induction false} SplitDate(year: string, month: string, rest: string)
    requires '-' !in year && '-' !in month
    requires rest == [] || rest[0] == '-'
    ensures |Split(year + "-" + month + rest, '-')| >= 2
    ensures Split(year + "-" + month + rest, '-')[0] == year
    ensures Split(year + "-" + month + rest, '-')[1] == month
  {
    assert year + "-" + month + rest == year + ['-'] + (month + rest);
    SplitCons(year, '-', month + rest);
    SplitHead(month, rest);
  }

  /** `"<digits>-<digits>"`, optionally followed by `-` and anything,
    * gives the two numbers: `"2025-07-31"` gives (2025, 7). */
  lemma {:induction false} JsonDateOfDigits(data: Json, year: string, month: string, rest: string)
    requires year != [] && AllDigits(year) && month != [] && AllDigits(month)
    requires rest == [] || rest[0] == '-'
    requires Cutoff(data) == Some(year + "-" + month + rest)
    ensures JsonDate(data) == Some((DigitsValue(year), DigitsValue(month)))
  {
    assert '-' !in year && '-' !in month;
    SplitDate(year, month, rest);
    var parts := Split(year + "-" + month + rest, '-');
    assert PyInt(parts[0]) == Some(DigitsValue(year));
    assert PyInt(parts[1]) == Some(DigitsValue(month));
  }

  // ---------------------------------------------------------------------
  // validate_date_with_folder

  /** `validate_date_with_folder(data, folder)`: a date that cannot be
    * extracted on either side counts as valid. */
  function ValidateDate(data: Json, folderName: string): (r: bool)
    ensures FolderDate(folderName).None? || JsonDate(data).None? ==> r
    ensures FolderDate(folderName).Some? && JsonDate(data).Some? ==>
      (r <==> FolderDate(folderName).value == JsonDate(data).value)
  {
    match (FolderDate(folderName), JsonDate(data))
    case (Some((fy, fm)), Some((jy, jm))) => fy == jy && fm == jm
    case _ => true
  }

  /** For a folder named `*_<y4>_<md>` and a cut-off `<year>-<month>[-...]`,
    * the file is valid exactly when the numbers agree. */
  lemma {:induction false} ValidateDateOfDigits(folderName: string, y4: string, sep: char, md: string,
                             data: Json, year: string, month: string, rest: string)
    requires FolderShape(folderName, y4, sep, md)
    requires year != [] && AllDigits(year) && month != [] && AllDigits(month)
    requires rest == [] || rest[0] == '-'
    requires Cutoff(data) == Some(year + "-" + month + rest)
    ensures ValidateDate(data, folderName) <==>
      DigitsValue(y4) == DigitsValue(year) && DigitsValue(md) == DigitsValue(month)
  {
    FolderPartsComplete(folderName, y4, sep, md);
    JsonDateOfDigits(data, year, month, rest);
    ValidateDateOf(data, folderName, DigitsValue(y4), DigitsValue(md), DigitsValue(year), DigitsValue(month));
  }

  /** A file is valid whenever either date cannot be read: the folder
    * name does not end in the year-and-month shape, or the data has no
    * usable `fic.fecha_corte`, or that cut-off has no `-`. */
  lemma {:induction false} ValidateDateUndetermined(data: Json, folderName: string)
    ensures (forall y4, sep, md :: !FolderShape(folderName, y4, sep, md)) ==> ValidateDate(data, folderName)
    ensures Cutoff(data).None? ==> ValidateDate(data, folderName)
    ensures Cutoff(data).Some? && '-' !in Cutoff(data).value ==> ValidateDate(data, folderName)
  {
    if FolderParts(folderName).Some? {
      FolderPartsSound(folderName);
    }
    if Cutoff(data).Some? && '-' !in Cutoff(data).value {
      JsonDateNeedsDash(data);
    }
  }

  lemma {:induction false} ValidateDateOf(data: Json, folderName: string, fy: int, fm: int, jy: int, jm: int)
    requires FolderDate(folderName) == Some((fy, fm)) && JsonDate(data) == Some((jy, jm))
    ensures ValidateDate(data, folderName) <==> fy == jy && fm == jm
  {
  }

  // ---------------------------------------------------------------------
  // validate_transformed_files_with_folder

  /** A transformed file: its name and, when it parses, its JSON content. */
  datatype JsonFile = JsonFile(name: string, content: Option<Json>)

  /** The `validation_results` dictionary. */
  datatype Validation = Validation(totalValidated: nat, dateMatches: nat, dateMismatches: nat, mismatchedFiles: seq<string>)

  /** A file counts as a match when it parses and its date is valid. */
  predicate FileMatches(f: JsonFile, folderName: string) {
    f.content.Some? && ValidateDate(f.content.value, folderName)
  }

  /** The names of the files `matches` rejects, in order. */
  function Rejected(matches: JsonFile -> bool, files: seq<JsonFile>): (r: seq<string>)
    ensures |r| <= |files|
  {
    if files == [] then []
    else
      var last := files[|files| - 1];
      Rejected(matches, files[..|files| - 1]) + (if matches(last) then [] else [last.name])
  }

  lemma {:induction false} RejectedStep(matches: JsonFile -> bool, files: seq<JsonFile>, i: nat)
    requires i < |files|
    ensures Rejected(matches, files[..i + 1]) == Rejected(matches, files[..i]) + (if matches(files[i]) then [] else [files[i].name])
  {
    assert files[..i + 1][..i] == files[..i];
  }

  /** A name is listed exactly when some file with that name is rejected. */
  lemma {:induction false} RejectedExactly(matches: JsonFile -> bool, files: seq<JsonFile>, name: string)
    ensures name in Rejected(matches, files) <==>
      exists i :: 0 <= i < |files| && files[i].name == name && !matches(files[i])
  {
    if files != [] {
      var n := |files| - 1;
      var front := files[..n];
      RejectedExactly(matches, front, name);
      assert forall i :: 0 <= i < n ==> front[i] == files[i];
      assert (exists i :: 0 <= i < |files| && files[i].name == name && !matches(files[i]))
        <==> (exists i :: 0 <= i < n && front[i].name == name && !matches(front[i]))
             || (files[n].name == name && !matches(files[n]));
    }
  }

  /** When every file matches, none is listed. */
  lemma {:induction false} NoneRejected(matches: JsonFile -> bool, files: seq<JsonFile>)
    requires forall i :: 0 <= i < |files| ==> matches(files[i])
    ensures Rejected(matches, files) == []
  {
    if files != [] {
      var n := |files| - 1;
      assert forall i :: 0 <= i < n ==> files[..n][i] == files[i];
      NoneRejected(matches, files[..n]);
    }
  }

  function MatchesIn(folderName: string): JsonFile -> bool {
    f => FileMatches(f, folderName)
  }

  /** The names of the files that do not match, in order. */
  function Mismatched(files: seq<JsonFile>, folderName: string): (r: seq<string>)
    ensures |r| <= |files|
  {
    Rejected(MatchesIn(folderName), files)
  }

  lemma {:induction false} MismatchedStep(files: seq<JsonFile>, folderName: string, i: nat)
    requires i < |files|
    ensures Mismatched(files[..i + 1], folderName)
      == Mismatched(files[..i], folderName) + (if FileMatches(files[i], folderName) then [] else [files[i].name])
  {
    RejectedStep(MatchesIn(folderName), files, i);
  }

  /** `validate_transformed_files_with_folder`, the files given in glob order. */
  method ValidateTransformedFiles(folderName: string, files: seq<JsonFile>) returns (v: Validation)
    ensures v.totalValidated == |files|
    ensures FolderDate(folderName).None? ==> v == Validation(|files|, 0, 0, [])
    ensures FolderDate(folderName).Some? ==>
      && v.mismatchedFiles == Mismatched(files, folderName)
      && v.dateMismatches == |v.mismatchedFiles|
      && v.dateMatches + v.dateMismatches == |files|
  {
    v := Validation(|files|, 0, 0, []);
    if files == [] {
      return;
    }
    if FolderDate(folderName).None? {
      return;
    }
    v := TallyFiles(folderName, files);
  }

  /** The loop of `validate_transformed_files_with_folder`: each file that
    * parses and agrees with the folder counts as a match, every other one
    * as a mismatch, and its name is kept. */
  method TallyFiles(folderName: string, files: seq<JsonFile>) returns (v: Validation)
    ensures v.totalValidated == |files|
    ensures v.mismatchedFiles == Mismatched(files, folderName)
    ensures v.dateMismatches == |v.mismatchedFiles|
    ensures v.dateMatches + v.dateMismatches == |files|
  {
    v := Validation(|files|, 0, 0, []);
    var i := 0;
    while i < |files|
      invariant i <= |files|
      invariant v.totalValidated == |files|
      invariant v.mismatchedFiles == Mismatched(files[..i], folderName)
      invariant v.dateMismatches == |v.mismatchedFiles|
      invariant v.dateMatches + v.dateMismatches == i
    {
      var f := files[i];
      MismatchedStep(files, folderName, i);
      if FileMatches(f, folderName) {
        v := v.(dateMatches := v.dateMatches + 1);
      } else {
        v := v.(dateMismatches := v.dateMismatches + 1, mismatchedFiles := v.mismatchedFiles + [f.name]);
      }
      i := i + 1;
    }
    assert files[..i] == files;
  }

  /** A name is listed exactly when some file with that name does not match. */
  lemma {:induction false} MismatchedExactly(files: seq<JsonFile>, folderName: string, name: string)
    ensures name in Mismatched(files, folderName) <==>
      exists i :: 0 <= i < |files| && files[i].name == name && !FileMatches(files[i], folderName)
  {
    RejectedExactly(MatchesIn(folderName), files, name);
  }

  /** Files that parse but carry no usable cut-off date all count as matches. */
  lemma {:induction false} NoCutoffCountsAsMatch(files: seq<JsonFile>, folderName: string)
    requires forall i :: 0 <= i < |files| ==> files[i].content.Some? && Cutoff(files[i].content.value).None?
    ensures Mismatched(files, folderName) == []
  {
    forall i | 0 <= i < |files| ensures FileMatches(files[i], folderName) {
      assert JsonDate(files[i].content.value).None?;
    }
    NoneRejected(MatchesIn(folderName), files);
  }
}
