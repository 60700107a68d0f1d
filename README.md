# owl-ETL core, modelled in Dafny

owl-ETL is a pipeline for Colombian collective investment fund (FIC) fact sheets. It extracts text from PDF fact sheets, asks a language model for a structured JSON document, normalises that document and loads it into PostgreSQL. Helper scripts validate the documents and compare them. This project models the sequential logic of that pipeline and proves what it promises.

- **`Json`** (`json.dfy`): JSON values (`Null | Bool | Int | Num(real) | Str | Arr | Obj`), plus the Python operations the code applies to them: `.get`, truthiness, `in`, and iteration of an item set.
- **`Text`** (`text.dfy`): the Python `str` operations used by the code, on `seq<char>`. These are `strip`, `in`, `find`, `split(sep)[0]` and `[1]`, `split(c)`, `replace`, `startswith` and `endswith`, and `int()`.
- **`Compare`** and **`CompareLemmas`** (`compare.dfy`, `compare_lemmas.dfy`): the ETL quality test `test_ETL.py`.
  - It covers the field counter, the recursive value diff, the keyed list diff and the section-aware file diff.
  - Each is a method with loops that appends differences, proved against a ghost specification function.
  - The specification functions return multisets, because the source iterates over Python sets.
- **`Report`** (`report.dfy`): `calculate_reliability` and the file-name parser `extract_bank_fund_name`.
- **`DateCheck`** (`dates.dfy`): the date extractors of the transform script and `validate_date_with_folder`. It also covers the validation loop over the transformed files, whose contents are given as a sequence of parsed files.
- **`SkipList`** (`skiplist.dfy`): the skip-list writer of the transform script and the reader `read_skip_list` of the load script. It also covers the `--skip-files` option and the round trip between the writer and the reader.
- **`Loader`** (`loader.dfy`): `load_to_database` and its `_insert_*` helpers, and the skip decision and report of `load_single_json`.
  - The database is a class holding the committed rows and the id sequence.
  - The session is a class holding the pending rows.
  - A spec function `Plan` gives every row one call writes. The methods are proved against it.
- **`Normalize`** (`normalize.dfy`): `normalize_data`. A dict at the top level of the document is an object (class `Dict`) that the caller and the shallow copy share, so rewriting `por_activo` in place is visible to the caller.
- **`Fence`** (`fence.dfy`): the clean-up of the language model's answer, which strips it and cuts a Markdown code fence out of it.

Python exceptions are modelled as `None`, or as `Err` in a `Result`. Every function and method that can raise has that error path.

## Model

| member | source | states |
|---|---|---|
| Compare.CountFields | src/scripts/test_ETL.py:36-46 | the loop count equals `FieldCount`: a scalar counts 0, each dict key counts 1 plus its value, and list items count only their contents |
| Compare.CountTotalFields | src/scripts/test_ETL.py:33-48 | the count of a document is `FieldCount` of the dict |
| CompareLemmas.FieldCountAtLeastKeys | src/scripts/test_ETL.py:38-41 | a dict counts at least once per key |
| CompareLemmas.FieldCountInsert | src/scripts/test_ETL.py:39-41 | a new key adds one plus the count of its value |
| CompareLemmas.FieldCountAppend | src/scripts/test_ETL.py:42-45 | a list item adds only its own count, and nothing for the item itself |
| Compare.ChildPath | src/scripts/test_ETL.py:64 | a child path is `path.key`, or `key` at the root, and extends `path` |
| Compare.IndexPath | src/scripts/test_ETL.py:78 | the path of a list item extends the list's path |
| Compare.KeyedPath | src/scripts/test_ETL.py:111 | the path of a keyed item extends the list's path |
| Compare.CompareValues | src/scripts/test_ETL.py:51-91 | the differences are, as a multiset, exactly `Diffs`; a type mismatch or a list length mismatch gives exactly one entry at `path` and no descent |
| Compare.CompareFields | src/scripts/test_ETL.py:60-70 | the loop over the union of the keys reports `KeyDiff` for every key |
| Compare.CompareKey | src/scripts/test_ETL.py:63-70 | a shared key recurses at the child path; a one-sided key gives one `MISSING` entry |
| Compare.CompareItems | src/scripts/test_ETL.py:72-79 | lists of equal length are compared item by item at `path[i]` |
| CompareLemmas.SelfDiffsEmpty | src/scripts/test_ETL.py:51-91 | any value compared with itself gives no difference |
| CompareLemmas.NoDiffsEqual | src/scripts/test_ETL.py:51-91 | no difference means the two values are equal |
| CompareLemmas.DiffsEmptyIff | src/scripts/test_ETL.py:51-91 | the result is empty if and only if the values are equal |
| CompareLemmas.DiffPathsExtend | src/scripts/test_ETL.py:60-79 | every reported path extends the starting path |
| CompareLemmas.LeftOnlyKeyReported | src/scripts/test_ETL.py:67-68 | a key only on the left is reported as `(path.key, value, MISSING)` |
| CompareLemmas.RightOnlyKeyReported | src/scripts/test_ETL.py:69-70 | a key only on the right is reported as `(path.key, MISSING, value)` |
| CompareLemmas.SharedKeyDescends | src/scripts/test_ETL.py:65-66 | the differences of a shared key's values, at `path.key`, are all reported |
| CompareLemmas.ItemDescends | src/scripts/test_ETL.py:76-79 | the differences of item `i`, at `path[i]`, are all reported |
| CompareLemmas.UseKeyCases | src/scripts/test_ETL.py:105 | with a key field and two non-empty lists: the guard raises exactly when the first item is not a dict, str or list, or holds the key while the second is none of those; it matches by key exactly when both first items hold the key (a dict key, a substring, a str list item) |
| CompareLemmas.UseKeyDicts | src/scripts/test_ETL.py:105 | with two dict first items, matching by key happens exactly when both hold the key field |
| CompareLemmas.IndexAllKeyed | src/scripts/test_ETL.py:106-107 | a built index gave every item a key |
| CompareLemmas.IndexKeys | src/scripts/test_ETL.py:106-109 | the keys of the index are exactly the items' keys |
| CompareLemmas.IndexLastWins | src/scripts/test_ETL.py:106-107 | each key maps to the last item that carries it |
| CompareLemmas.IndexFails | src/scripts/test_ETL.py:106-107 | building the index raises exactly when some item is not a dict holding a hashable key |
| Compare.CompareKeyed | src/scripts/test_ETL.py:109-117 | the loop over the union of the index keys reports `KeyedDiffs` |
| Compare.CompareListOfDicts | src/scripts/test_ETL.py:94-124 | the differences are, as a multiset, exactly `ListDiffs`, or the call raises exactly when `ListDiffs` is `None` |
| CompareLemmas.ListLengthReported | src/scripts/test_ETL.py:101-102 | a length mismatch is reported, and the comparison goes on |
| CompareLemmas.ListPositional | src/scripts/test_ETL.py:118-122 | without key matching, every item of the common prefix is compared at `path[i]` |
| CompareLemmas.ListKeyedMatch | src/scripts/test_ETL.py:110-113 | with key matching, items sharing a key are compared at `path[key]` |
| CompareLemmas.ListKeyedMissing | src/scripts/test_ETL.py:114-115 | with key matching, a key only in the first list is reported `MISSING` on the right |
| CompareLemmas.ListSelfEmpty | src/scripts/test_ETL.py:94-124 | a list compared with itself gives no difference |
| Compare.CompareSubsection | src/scripts/test_ETL.py:151-169 | one composition sub-section is compared by its category key, or reported `MISSING` |
| Compare.CompareComposition | src/scripts/test_ETL.py:149-169 | the sub-section loop gives exactly `CompositionDiffs` |
| Compare.CompareSection | src/scripts/test_ETL.py:140-175 | one main section is compared by its rule, or reported missing on one side |
| Compare.CompareJsonFiles | src/scripts/test_ETL.py:127-177 | the differences are exactly `FileDiffs`, and the field total is the count of the first file |
| Compare.CompareSections | src/scripts/test_ETL.py:140-175 | the loop over the main sections, in order, reports exactly `SectionsDiffs`, or raises as soon as one section raises |
| Compare.SectionsNoneStays | src/scripts/test_ETL.py:140-175 | once one section raises, the whole comparison raises |
| CompareLemmas.SubsDiffsAgree | src/scripts/test_ETL.py:151-152 | the composition comparison sees the second file only through the first file's sub-sections |
| CompareLemmas.CompositionIgnoresExtra | src/scripts/test_ETL.py:151-152 | a sub-section present only in the second file is never reported |
| CompareLemmas.SubsectionMissingReported | src/scripts/test_ETL.py:168-169 | a sub-section that the second file lacks is reported `MISSING` |
| CompareLemmas.SectionMissingRight | src/scripts/test_ETL.py:172-173 | a main section present only in the first file is reported `MISSING` |
| CompareLemmas.SectionMissingLeft | src/scripts/test_ETL.py:174-175 | a main section present only in the second file is reported `MISSING` |
| CompareLemmas.SelfFileDiffsEmpty | src/scripts/test_ETL.py:127-177 | a file compared with itself gives no difference, when the call does not raise |
| Report.Reliability | src/scripts/test_ETL.py:180-184 | the score is 0 for no fields and 100 for no differences; otherwise it lies in [0, 100], and is 0 once the differences reach the field count |
| Report.ReliabilityMonotone | src/scripts/test_ETL.py:184 | more differences never raise the score |
| Report.SelfReliability | src/scripts/test_ETL.py:180-184 | a non-empty file compared with itself scores 100 |
| Report.TailLength | src/scripts/test_ETL.py:15 | a found ending is one of the four endings the pattern accepts: with or without `_PRUEBA`, each optionally before a final newline |
| Report.FirstSeparator | src/scripts/test_ETL.py:15 | the lazy group stops at the first `_` that leaves a non-empty rest |
| Report.ExtractBankFundSound | src/scripts/test_ETL.py:15-20 | a match splits the name into a non-empty bank, `_`, a non-empty fund and an accepted ending; the bank is the shortest such prefix |
| Report.BankFundSound | src/scripts/test_ETL.py:15-20 | the two lazy groups, when they match, are non-empty, newline-free, cut at the first `_` after the first character, and rebuild the text |
| Report.ExtractBankFundComplete | src/scripts/test_ETL.py:15-20 | every such decomposition is found, so the parser returns None exactly when there is none |
| Report.TailOf | src/scripts/test_ETL.py:15 | the accepted endings are told apart by the end of the name |
| DateCheck.DropFinalNewline | src/scripts/script_transform.py:36 | `$` may match before one final newline: exactly one trailing newline is set aside, and the name is kept whole when it does not end in one |
| DateCheck.FolderParts | src/scripts/script_transform.py:36-37 | the groups found are digits |
| DateCheck.FolderPartsSound | src/scripts/script_transform.py:36-43 | groups are found only in a name that ends in four digits, `_` or `-`, and one or two digits |
| DateCheck.FolderPartsComplete | src/scripts/script_transform.py:36-43 | every name of that shape gives exactly those groups |
| DateCheck.FolderMonthUnchecked | src/scripts/script_transform.py:40-43 | the month is not range-checked: `x_2025_00` gives (2025, 0) |
| DateCheck.JsonDate | src/scripts/script_transform.py:49-78 | a date is the `int()` of the first two `-` parts of a string `fic.fecha_corte`; anything else gives no date, without raising |
| DateCheck.JsonDateNeedsDash | src/scripts/script_transform.py:66-74 | a cut-off without `-` gives no date |
| DateCheck.SplitDate | src/scripts/script_transform.py:66-69 | the first two parts of `year-month[-…]` are the year and the month |
| DateCheck.JsonDateOfDigits | src/scripts/script_transform.py:61-71 | `"2025-07-31"`-shaped cut-offs give the numbers of their first two parts |
| DateCheck.ValidateDateUndetermined | src/scripts/script_transform.py:92-104 | valid when a date cannot be read: a folder name not ending in the year and month shape, data without a usable `fic.fecha_corte`, or a cut-off without `-` |
| DateCheck.ValidateDateOfDigits | src/scripts/script_transform.py:92-114 | for a well-formed folder name and cut-off, valid exactly when the numbers agree |
| DateCheck.Mismatched | src/scripts/script_transform.py:190-206 | at most one name per file |
| DateCheck.ValidateTransformedFiles | src/scripts/script_transform.py:156-208 | `total_validated` counts every file. A folder without a date gives 0 matches and 0 mismatches. Otherwise matches plus mismatches is the total, and `mismatched_files` is `Mismatched` in order |
| DateCheck.TallyFiles | src/scripts/script_transform.py:188-206 | every file that parses and agrees with the folder is a match, every other one a mismatch; the mismatched names are `Mismatched` in file order |
| DateCheck.MismatchedExactly | src/scripts/script_transform.py:190-206 | a name is listed exactly when some file of that name is unreadable or mismatches |
| DateCheck.NoCutoffCountsAsMatch | src/scripts/script_transform.py:197-201 | files that parse but carry no usable cut-off all count as matches |
| SkipList.WriteSkipList | src/scripts/script_transform.py:278-286 | the text written is two `#` headers, a blank line, then one base name per line in list order |
| SkipList.BodyAppend | src/scripts/script_transform.py:283-286 | each mismatched name appends its base name and a newline |
| SkipList.BaseNameOf | src/scripts/script_transform.py:285 | `X_transformed.json` becomes `X` when `X` holds no `_transformed.json` |
| SkipList.Translate | src/scripts/script_load.py:171 | text without `\r` reads back unchanged |
| SkipList.ReadSkipList | src/scripts/script_load.py:154-187 | the loop's set is `SkipListNames`: empty for a missing or unreadable file |
| SkipList.SkipNamesExactly | src/scripts/script_load.py:172-180 | a name is read back exactly when some kept line normalises to it |
| SkipList.SkipNamesConcat | src/scripts/script_load.py:172-180 | the names of two runs of lines are the union of each run's names |
| SkipList.NormalizeJsonName | src/scripts/script_load.py:178-179 | a kept `y.json` becomes `y_transformed.json`; applied to `x_transformed.json`, this gives `x_transformed_transformed.json` |
| SkipList.HeadersAreHeaderLines | src/scripts/script_transform.py:280-281 | both header lines start with `#`, are stripped and hold no line break |
| SkipList.HeaderSplit | src/scripts/script_transform.py:280-281 | the text splits into the two headers, a blank line, then the body's lines |
| SkipList.HeaderNotKept | src/scripts/script_load.py:173-174 | a `#` line is ignored by the reader |
| SkipList.HeadersNotKept | src/scripts/script_load.py:173-174 | the writer's header block contributes no name |
| SkipList.BodyLines | src/scripts/script_transform.py:283-286 | the body's lines are the base names, in order |
| SkipList.ReadBackBody | src/scripts/script_load.py:171-180 | the reader turns each base name `X` back into `X_transformed.json` |
| SkipList.SkipListRoundTrip | src/scripts/script_load.py:171-180 | a mismatched list written by `create_skip_list_from_validation` (script_transform.py:280-286) reads back as exactly the same set of names |
| SkipList.CommandNamesExactly | src/scripts/script_load.py:221-229 | a `--skip-files` item gives a name exactly when it is non-empty once stripped, and it gets the reader's normalisation |
| SkipList.ReadSkipFiles | src/scripts/script_load.py:222-229 | the loop over the comma-separated items collects exactly `CommandNames` |
| SkipList.BuildSkipSet | src/scripts/script_load.py:216-229 | the skip set is the union of the file's names and the option's names |
| Text.Strip | src/scripts/script_load.py:173 | `strip()` removes exactly the surrounding whitespace |
| Text.PyInt | src/scripts/script_transform.py:68 | `int()` of ASCII digits is their decimal value |
| Text.PyIntNatText | src/scripts/script_transform.py:68-69 | `int(str(n)) == n` |
| Loader.Session.Add | src/etl/load.py:151 | `session.add` appends one pending row |
| Loader.Session.AddFund | src/etl/load.py:120-121 | the flush takes the next id even when it fails; it fails exactly when a NOT NULL column is NULL |
| Loader.Session.Commit | src/etl/load.py:92 | the pending rows are appended to the table rows exactly when none breaks a NOT NULL column |
| Loader.Session.Rollback | src/etl/load.py:98-99 | the pending rows are discarded |
| Loader.InsertFicData | src/etl/load.py:107-124 | a new fund row from `data.get('fic', {})`, with `''` defaults for `nombre_fic` and `gestor`, and the id of the sequence; it raises when `data` or `fic` is not a dict |
| Loader.ItemRow | src/etl/load.py:144-150 | each item's row carries the fund id |
| Loader.ItemRows | src/etl/load.py:143-151 | one row per item, in order, each built from its own item; it raises exactly when some item is not a dict |
| Loader.InsertItems | src/etl/load.py:143-151 | the loop appends exactly `ItemRows` |
| Loader.InsertFor | src/etl/load.py:142-151 | `section.get(key, [])` items are appended, or the call raises |
| Loader.CategoriaFirstTruthy | src/etl/load.py:147-148 | `categoria` is the first truthy of `activo`, `tipo`, `sector`, `pais`, `moneda`; failing those it is `calificacion`, or `''` |
| Loader.CategoriesShape | src/etl/load.py:141-151 | each row is a composition row of the fund, and its `tipo_composicion` comes from the category mapping |
| Loader.CategoriesStep | src/etl/load.py:141-151 | the categories contribute their rows in the mapping's fixed order |
| Loader.InsertCategories | src/etl/load.py:141-151 | the loop over the categories appends exactly `CategoriesRows`, or stops at the first category that raises |
| Loader.InsertComposicion | src/etl/load.py:127-151 | the six categories of `composicion_portafolio` are appended as exactly `CompositionRows`; a section that is not a dictionary raises |
| Loader.CaracteristicasRowOf | src/etl/load.py:167-178 | exactly one row, with all fields None when the section is absent; it raises when the section is not a dict |
| Loader.InsertCaracteristicas | src/etl/load.py:167-178 | appends that one row |
| Loader.CalificacionRowOf | src/etl/load.py:181-192 | exactly one row, with all fields None when the section is absent; it raises when the section is not a dict |
| Loader.InsertCalificacion | src/etl/load.py:181-192 | appends that one row |
| Loader.HorizonsOf | src/etl/load.py:221-226 | an empty horizon block leaves all six fields None |
| Loader.RentVolPair | src/etl/load.py:212-241 | one rentabilidad row and one volatilidad row with the same `tipo_participacion` (default `''`); a missing block leaves its six horizons None |
| Loader.RentVolRows | src/etl/load.py:210-241 | two rows per entry in entry order, and exactly `2 × entries` rows |
| Loader.RentVolStep | src/etl/load.py:212-241 | each entry appends its pair after the rows of the entries before it |
| Loader.InsertRentVolEntry | src/etl/load.py:213-241 | one entry's loop body appends its pair, or raises |
| Loader.InsertRentVol | src/etl/load.py:208-241 | the loop appends exactly `RentVolRowsFor` |
| Loader.InsertDependents | src/etl/load.py:71-89 | steps 2 to 8 append exactly `DependentRows`, or one of them raises |
| Loader.LoadToDatabase | src/etl/load.py:52-105 | all or nothing: it succeeds exactly when `Commits`, and then returns the new fund id and appends exactly `Plan`; on failure the table rows are unchanged; the id sequence advances whenever the fund row was flushed; table validity is kept |
| Loader.LoadSteps | src/etl/load.py:63-99 | the steps in order with one commit: success exactly when `Commits`, and then exactly `Plan` is appended; every failure rolls back and leaves the rows unchanged; the id sequence advances whenever the fund row was flushed |
| Loader.FundRefused | src/etl/load.py:112-121 | a fund row with a NULL `nombre_fic` or `gestor` makes the whole call fail |
| Loader.AppendFund | src/etl/load.py:120-124 | appending a plan keeps fund ids positive, below the sequence and distinct |
| Loader.DependentsOf | src/etl/load.py:70-89 | every row the dependent steps write carries the fund's id |
| Loader.PlanShape | src/etl/load.py:68-89 | every call writes one brand-new fund row first; every other row carries that row's id |
| Loader.PlanCounts | src/etl/load.py:67-92 | exactly one fund, caracteristicas, calificacion and raw JSON row; as many rentabilidad and volatilidad rows as entries |
| Loader.LoadSingleJson | src/scripts/script_load.py:23-71 | a skipped name gives `skipped`, `fic_id` None and no load. Otherwise it gives `success` with the new id and `error` None exactly when the load commits, and `failed` with `fic_id` None, an error and no rows otherwise |
| Normalize.RenamePlazo | src/etl/transform.py:54-55 | `plazoDuracion` disappears and its value overwrites `plazo_duracion`; other keys are unchanged |
| Normalize.RenamePlazoIdempotent | src/etl/transform.py:54-55 | renaming twice is renaming once |
| Normalize.RewriteActivo | src/etl/transform.py:60-61 | same length and order; each item has exactly `activo` and `participacion`, the latter being `porcentaje_participacion` or None; it raises exactly when some item is not a dict with `activo` |
| Normalize.RewriteTwiceLosesShares | src/etl/transform.py:60-61 | a second rewrite keeps every `activo` but sets every `participacion` to None |
| Normalize.RewriteComposition | src/etl/transform.py:59-61 | only `por_activo` changes; it is unchanged when absent |
| Normalize.NormalizeData | src/etl/transform.py:40-68 | the caller's top-level entries are untouched; the result is a new dict with `plazoDuracion` renamed; the caller's own composition dict is rewritten in place and shared with the result; a raise leaves everything unchanged |
| Fence.StripFences | src/etl/extract.py:191-197 | every branch ends in `strip()`: the output has no surrounding whitespace |
| Fence.NoFenceUnchanged | src/etl/extract.py:191-197 | without any fence the output is the stripped response |
| Fence.JsonFenceBody | src/etl/extract.py:194-195 | with a ```` ```json ```` tag: the piece after the first tag up to the next tag, or the end, cut at its first fence, stripped |
| Fence.TickOfNextTagKept | src/etl/extract.py:194-195 | the answer ```` ```jsonA````json ```` gives ``A` ``: the tick before the second tag is kept |
| Fence.FirstTickCutDiffers | src/etl/extract.py:194-195 | for that answer, a cut at the first fence after the first tag would give `A`, so the split at the second tag matters |
| Fence.BareFenceBody | src/etl/extract.py:196-197 | without that tag: the text between the first two fences, or from the first to the end, stripped |
| Fence.UpperCaseTagKept | src/etl/extract.py:194-197 | a ```` ```JSON ```` tag is not removed: the output starts with `JSON` |
| Fence.NoTickLeft | src/etl/extract.py:194-197 | when the response holds a fence, the output holds none |
| Fence.StripFencesSubstring | src/etl/extract.py:191-197 | the output is a contiguous piece of the response |

## Left out

- Network, PDF and language model clients, polling and retries (`extract.py` apart from lines 191-197); `response.text` is taken as a string.
- Threads, `as_completed` tallying, CLI parsing, globbing, printing and logging. File reads are given as values: parsed JSON as `Option<Json>`, and the skip-list file as `Absent | Unreadable | Contents`.
- `save_json_to_file`, timestamps, the pandas/Excel report and `pipeline.py`. These are I/O or orchestration.
- `clean_json_data`, `transform_fic_data` and `validar_datos_transformados`. The first can only raise: its schema import is commented out. The other two are not part of this model.
- Compare: the 1e-10 float tolerance. Numbers are exact reals.
- Compare: which exception is raised. An exception is one `None`.
- Compare.CompareListOfDicts: arguments that are not lists are an exception (`None`), although Python would iterate over a str or dict. The same holds for non-dict composition blocks in `Compare.CompareComposition`.
- Compare: the list order of the differences. Sets are iterated in hash order, so the result is specified as a multiset.
- Compare: Python's rendering of non-string keys in `path[key]` paths is simplified (`KeyText`).
- Compare: dict keys equal under Python hashing (`1`, `1.0`, `True`) are not merged. Dict key order is not modelled (maps).
- Compare: the unused `path` argument of `count_fields` is dropped.
- DateCheck: regex `\d` and `int()` accept ASCII digits only, not every Unicode digit.
- DateCheck.ValidateTransformedFiles: the `validation_results` dict is a datatype, and the files are given in glob order.
- SkipList.WriteSkipList: errors while writing are not modelled. `validation_results.get('mismatched_files', [])` is given as the list itself.
- Loader: PostgreSQL types, lengths and `server_default` columns. Only the NOT NULL constraints are modelled.
- Loader: the ids of dependent rows, `created_at` and `session.close()` are not modelled.
- Loader.Session.AddFund: `session.add` and `session.flush` are merged into one step.
- Loader.LoadToDatabase: error messages are not the SQLAlchemy texts.
- Loader.LoadSingleJson: `load_existing_json_to_database` is `load_to_database` itself (`load.py:256-261`).
- Normalize: only dicts at the top level of the document are objects. Deeper values are values, which is enough, because `normalize_data` mutates nothing deeper.
- Normalize: the key order that `pop` and assignment give a Python dict is not modelled.
