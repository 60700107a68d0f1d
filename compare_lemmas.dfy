/**
 * What the comparison of the ETL quality report promises, proved about the
 * specification functions of module Compare (and through their `ensures`,
 * about the methods that implement them).
 */
module CompareLemmas {
  import opened Wrappers
  import opened Text
  import opened Json
  import opened Compare

  // ---------------------------------------------------------------------
  // compare_values

  /** Comparing a value with itself reports nothing. */
  lemma {:induction false} SelfDiffsEmpty(a: Json, path: string)
    ensures Diffs(a, a, path) == multiset{}
    decreases a, 1, 0
  {
    match a
    case Obj(m) =>
      assert m.Keys + m.Keys == m.Keys;
      SelfKeysEmpty(m, m.Keys, path);
    case Arr(xs) =>
      SelfItemsEmpty(xs, path, |xs|);
    case _ =>
  }

  lemma {:induction false} SelfKeysEmpty(m: map<string, Json>, keys: set<string>, path: string)
    ensures KeysDiffs(m, m, keys, path) == multiset{}
    decreases Obj(m), 0, |keys|
  {
    if keys != {} {
      var k :| k in keys;
      KeysDiffsSplit(m, m, keys, path, k);
      if k in m {
        SelfDiffsEmpty(m[k], ChildPath(path, k));
      }
      SelfKeysEmpty(m, keys - {k}, path);
    }
  }

  lemma {:induction false} SelfItemsEmpty(xs: seq<Json>, path: string, n: nat)
    requires n <= |xs|
    ensures ItemsDiffs(xs, xs, path, n) == multiset{}
    decreases Arr(xs), 0, n
  {
    if n > 0 {
      SelfItemsEmpty(xs, path, n - 1);
      SelfDiffsEmpty(xs[n - 1], IndexPath(path, n - 1));
    }
  }

  /** A comparison that reports nothing was given equal values. */
  lemma {:induction false} NoDiffsEqual(a: Json, b: Json, path: string)
    requires Diffs(a, b, path) == multiset{}
    ensures a == b
    decreases a, 1, 0
  {
    match (a, b)
    case (Obj(m1), Obj(m2)) =>
      var all := m1.Keys + m2.Keys;
      forall k | k in all
        ensures k in m1 && k in m2 && m1[k] == m2[k]
      {
        KeysDiffsSplit(m1, m2, all, path, k);
        if k in m1 && k in m2 {
          NoDiffsEqual(m1[k], m2[k], ChildPath(path, k));
        }
      }
      assert m1 == m2;
    case (Arr(xs), Arr(ys)) =>
      assert |xs| == |ys| && ItemsDiffs(xs, ys, path, |xs|) == multiset{};
      forall i | 0 <= i < |xs| ensures xs[i] == ys[i] {
        ItemInItemsDiffs(xs, ys, path, |xs|, i);
        NoDiffsEqual(xs[i], ys[i], IndexPath(path, i));
      }
      assert xs == ys;
    case _ =>
  }

  /** `compare_values(a, b)` is empty exactly when `a == b`. */
  lemma {:induction false} DiffsEmptyIff(a: Json, b: Json, path: string)
    ensures Diffs(a, b, path) == multiset{} <==> a == b
  {
    if a == b {
      SelfDiffsEmpty(a, path);
    } else if Diffs(a, b, path) == multiset{} {
      NoDiffsEqual(a, b, path);
    }
  }

  /** Every reported path extends the path the comparison started at. */
  predicate Under(ds: multiset<Diff>, path: string) {
    forall d | d in ds :: path <= d.path
  }

  lemma {:induction false} PrefixTrans(p: string, q: string, r: string)
    requires p <= q && q <= r
    ensures p <= r
  {
    assert r[..|q|][..|p|] == r[..|p|];
  }

  lemma {:induction false} DiffPathsExtend(a: Json, b: Json, path: string)
    ensures Under(Diffs(a, b, path), path)
    decreases a, 1, 0
  {
    if SameType(a, b) {
      match (a, b)
      case (Obj(m1), Obj(m2)) =>
        KeysPathsExtend(m1, m2, m1.Keys + m2.Keys, path);
      case (Arr(xs), Arr(ys)) =>
        if |xs| == |ys| {
          ItemsPathsExtend(xs, ys, path, |xs|);
        }
      case _ =>
    }
  }

  lemma {:induction false} KeysPathsExtend(m1: map<string, Json>, m2: map<string, Json>, keys: set<string>, path: string)
    ensures Under(KeysDiffs(m1, m2, keys, path), path)
    decreases Obj(m1), 0, |keys|
  {
    if keys != {} {
      var k :| k in keys;
      KeysDiffsSplit(m1, m2, keys, path, k);
      var p := ChildPath(path, k);
      if k in m1 && k in m2 {
        DiffPathsExtend(m1[k], m2[k], p);
        forall d | d in Diffs(m1[k], m2[k], p) ensures path <= d.path {
          PrefixTrans(path, p, d.path);
        }
      }
      KeysPathsExtend(m1, m2, keys - {k}, path);
    }
  }

  lemma {:induction false} ItemsPathsExtend(xs: seq<Json>, ys: seq<Json>, path: string, n: nat)
    requires n <= |xs| && n <= |ys|
    ensures Under(ItemsDiffs(xs, ys, path, n), path)
    decreases Arr(xs), 0, n
  {
    if n > 0 {
      ItemsPathsExtend(xs, ys, path, n - 1);
      var p := IndexPath(path, n - 1);
      DiffPathsExtend(xs[n - 1], ys[n - 1], p);
      forall d | d in Diffs(xs[n - 1], ys[n - 1], p) ensures path <= d.path {
        PrefixTrans(path, p, d.path);
      }
    }
  }

  /** A key only in the first dictionary is reported as `MISSING` on the right. */
  lemma {:induction false} LeftOnlyKeyReported(m1: map<string, Json>, m2: map<string, Json>, path: string, k: string)
    requires k in m1 && k !in m2
    ensures Diff(ChildPath(path, k), Val(m1[k]), Missing) in Diffs(Obj(m1), Obj(m2), path)
  {
    KeysDiffsSplit(m1, m2, m1.Keys + m2.Keys, path, k);
  }

  /** A key only in the second dictionary is reported as `MISSING` on the left. */
  lemma {:induction false} RightOnlyKeyReported(m1: map<string, Json>, m2: map<string, Json>, path: string, k: string)
    requires k !in m1 && k in m2
    ensures Diff(ChildPath(path, k), Missing, Val(m2[k])) in Diffs(Obj(m1), Obj(m2), path)
  {
    KeysDiffsSplit(m1, m2, m1.Keys + m2.Keys, path, k);
  }

  /** A shared key is compared at the path `path.key` (`key` at the root). */
  lemma {:induction false} SharedKeyDescends(m1: map<string, Json>, m2: map<string, Json>, path: string, k: string)
    requires k in m1 && k in m2
    ensures Diffs(m1[k], m2[k], ChildPath(path, k)) <= Diffs(Obj(m1), Obj(m2), path)
  {
    KeysDiffsSplit(m1, m2, m1.Keys + m2.Keys, path, k);
  }

  lemma {:induction false} ItemInItemsDiffs(xs: seq<Json>, ys: seq<Json>, path: string, n: nat, i: nat)
    requires n <= |xs| && n <= |ys| && i < n
    ensures Diffs(xs[i], ys[i], IndexPath(path, i)) <= ItemsDiffs(xs, ys, path, n)
  {
    var front, last := ItemsDiffs(xs, ys, path, n - 1), Diffs(xs[n - 1], ys[n - 1], IndexPath(path, n - 1));
    assert ItemsDiffs(xs, ys, path, n) == front + last;
    if i < n - 1 {
      ItemInItemsDiffs(xs, ys, path, n - 1, i);
      SubUnion(Diffs(xs[i], ys[i], IndexPath(path, i)), front, last);
    } else {
      SubUnion(last, last, front);
    }
  }

  lemma {:induction false} SubUnion(d: multiset<Diff>, a: multiset<Diff>, b: multiset<Diff>)
    requires d <= a
    ensures d <= a + b && d <= b + a
  {
  }

  /** Lists of the same length are compared item by item at `path[i]`. */
  lemma {:induction false} ItemDescends(xs: seq<Json>, ys: seq<Json>, path: string, i: nat)
    requires |xs| == |ys| && i < |xs|
    ensures Diffs(xs[i], ys[i], IndexPath(path, i)) <= Diffs(Arr(xs), Arr(ys), path)
  {
    assert Diffs(Arr(xs), Arr(ys), path) == ItemsDiffs(xs, ys, path, |xs|);
    ItemInItemsDiffs(xs, ys, path, |xs|, i);
  }

  // ---------------------------------------------------------------------
  // compare_list_of_dicts

  /** When both first items are dicts, matching by key happens exactly when
    * both have the key field. */
  lemma {:induction false} UseKeyDicts(xs: seq<Json>, ys: seq<Json>, keyField: string)
    requires xs != [] && ys != [] && xs[0].Obj? && ys[0].Obj?
    ensures UseKey(xs, ys, keyField) ==
      Some(keyField != "" && keyField in xs[0].fields && keyField in ys[0].fields)
  {
  }

  /** A value Python's `in` accepts as a container: a dict, a str or a list. */
  predicate Container(v: Json) {
    v.Obj? || v.Str? || v.Arr?
  }

  /** `key in v` holds: a key of a dict, a substring of a str, or a str item
    * of a list. */
  predicate HoldsKey(v: Json, key: string) {
    || (v.Obj? && key in v.fields)
    || (v.Str? && Contains(v.s, key))
    || (v.Arr? && Str(key) in v.items)
  }

  /** With a key field and two non-empty lists, the guard raises exactly
    * when the first test has no container, or the first test holds and
    * the second has no container; it chooses matching by key exactly when
    * both first items hold the key; otherwise it is false. */
  lemma {:induction false} UseKeyCases(xs: seq<Json>, ys: seq<Json>, keyField: string)
    requires keyField != "" && xs != [] && ys != []
    ensures UseKey(xs, ys, keyField).None? <==>
      !Container(xs[0]) || (HoldsKey(xs[0], keyField) && !Container(ys[0]))
    ensures UseKey(xs, ys, keyField) == Some(true) <==>
      HoldsKey(xs[0], keyField) && HoldsKey(ys[0], keyField)
  {
  }

  /** An index that was built gave every item a key. */
  lemma {:induction false} IndexAllKeyed(items: seq<Json>, keyField: string)
    requires Index(items, keyField).Some?
    ensures forall i :: 0 <= i < |items| ==> KeyOf(items[i], keyField).Some?
  {
    if items != [] {
      var n := |items| - 1;
      IndexAllKeyed(items[..n], keyField);
      forall i | 0 <= i < n ensures KeyOf(items[i], keyField).Some? {
        assert items[..n][i] == items[i];
      }
    }
  }

  /** The keys of the index are the keys of the items. */
  lemma {:induction false} IndexKeys(items: seq<Json>, keyField: string)
    requires Index(items, keyField).Some?
    ensures forall i :: 0 <= i < |items| ==> KeyOf(items[i], keyField).Some?
    ensures Index(items, keyField).value.Keys ==
      set i | 0 <= i < |items| :: KeyOf(items[i], keyField).value
  {
    IndexAllKeyed(items, keyField);
    if items != [] {
      var n := |items| - 1;
      var front := items[..n];
      IndexKeys(front, keyField);
      var k := KeyOf(items[n], keyField).value;
      forall i | 0 <= i < n ensures front[i] == items[i] {
      }
      assert (set i | 0 <= i < |items| :: KeyOf(items[i], keyField).value)
        == (set i | 0 <= i < n :: KeyOf(front[i], keyField).value) + {k};
    }
  }

  /** `items[i]` is the last item whose key is the same as its own. */
  predicate LastWithKey(items: seq<Json>, keyField: string, i: int) {
    && 0 <= i < |items|
    && forall j :: i < j < |items| ==> KeyOf(items[j], keyField) != KeyOf(items[i], keyField)
  }

  /** Each key of the index maps to the last item carrying it. */
  lemma {:induction false} IndexLastWins(items: seq<Json>, keyField: string, i: int)
    requires Index(items, keyField).Some?
    requires LastWithKey(items, keyField, i)
    ensures KeyOf(items[i], keyField).Some?
    ensures KeyOf(items[i], keyField).value in Index(items, keyField).value
    ensures Index(items, keyField).value[KeyOf(items[i], keyField).value] == items[i]
  {
    IndexAllKeyed(items, keyField);
    var n := |items| - 1;
    var front := items[..n];
    var d := Index(front, keyField).value;
    var k := KeyOf(items[n], keyField).value;
    assert Index(items, keyField).value == d[k := items[n]];
    if i < n {
      assert front[i] == items[i];
      assert KeyOf(items[n], keyField) != KeyOf(items[i], keyField);
      forall j | i < j < |front| ensures KeyOf(front[j], keyField) != KeyOf(front[i], keyField) {
        assert front[j] == items[j];
      }
      IndexLastWins(front, keyField, i);
    }
  }

  /** The index raises exactly when some item is not a dict with a
    * hashable value under the key field. */
  lemma {:induction false} IndexFails(items: seq<Json>, keyField: string)
    ensures Index(items, keyField).None? <==>
      exists i :: 0 <= i < |items| && KeyOf(items[i], keyField).None?
  {
    if items != [] {
      var n := |items| - 1;
      IndexFails(items[..n], keyField);
      if Index(items, keyField).None? && Index(items[..n], keyField).None? {
        var i :| 0 <= i < n && KeyOf(items[..n][i], keyField).None?;
        assert items[..n][i] == items[i];
      }
      if exists i :: 0 <= i < |items| && KeyOf(items[i], keyField).None? {
        var i :| 0 <= i < |items| && KeyOf(items[i], keyField).None?;
        if i < n {
          assert items[..n][i] == items[i];
        }
      }
    }
  }

  /** A length mismatch is reported, and the comparison goes on. */
  lemma {:induction false} ListLengthReported(xs: seq<Json>, ys: seq<Json>, path: string, keyField: string)
    requires |xs| != |ys|
    requires ListDiffs(Arr(xs), Arr(ys), path, keyField).Some?
    ensures Diff(path, Length(|xs|), Length(|ys|)) in ListDiffs(Arr(xs), Arr(ys), path, keyField).value
  {
  }

  /** Without a usable key field the lists are compared position by position
    * over their common prefix. */
  lemma {:induction false} ListPositional(xs: seq<Json>, ys: seq<Json>, path: string, keyField: string, i: nat)
    requires UseKey(xs, ys, keyField) == Some(false)
    requires i < |xs| && i < |ys|
    ensures ListDiffs(Arr(xs), Arr(ys), path, keyField).Some?
    ensures Diffs(xs[i], ys[i], IndexPath(path, i)) <= ListDiffs(Arr(xs), Arr(ys), path, keyField).value
  {
    ItemInItemsDiffs(xs, ys, path, Min(|xs|, |ys|), i);
  }

  /** With a usable key field, items carrying the same key are compared at
    * `path[key]`. */
  lemma {:induction false} ListKeyedMatch(xs: seq<Json>, ys: seq<Json>, path: string, keyField: string, k: Json)
    requires UseKey(xs, ys, keyField) == Some(true)
    requires Index(xs, keyField).Some? && Index(ys, keyField).Some?
    requires k in Index(xs, keyField).value && k in Index(ys, keyField).value
    ensures ListDiffs(Arr(xs), Arr(ys), path, keyField).Some?
    ensures Diffs(Index(xs, keyField).value[k], Index(ys, keyField).value[k], KeyedPath(path, k))
      <= ListDiffs(Arr(xs), Arr(ys), path, keyField).value
  {
    var d1, d2 := Index(xs, keyField).value, Index(ys, keyField).value;
    var keyed := KeyedDiffs(d1, d2, d1.Keys + d2.Keys, path);
    assert ListDiffs(Arr(xs), Arr(ys), path, keyField) == Some(LengthDiff(xs, ys, path) + keyed);
    KeyedDiffsSplit(d1, d2, d1.Keys + d2.Keys, path, k);
    assert KeyedDiff(d1, d2, k, path) == Diffs(d1[k], d2[k], KeyedPath(path, k));
  }

  /** With a usable key field, a key found only in the first list is
    * reported as `MISSING` on the right. */
  lemma {:induction false} ListKeyedMissing(xs: seq<Json>, ys: seq<Json>, path: string, keyField: string, k: Json)
    requires UseKey(xs, ys, keyField) == Some(true)
    requires Index(xs, keyField).Some? && Index(ys, keyField).Some?
    requires k in Index(xs, keyField).value && k !in Index(ys, keyField).value
    ensures ListDiffs(Arr(xs), Arr(ys), path, keyField).Some?
    ensures Diff(KeyedPath(path, k), Val(Index(xs, keyField).value[k]), Missing)
      in ListDiffs(Arr(xs), Arr(ys), path, keyField).value
  {
    var d1, d2 := Index(xs, keyField).value, Index(ys, keyField).value;
    var keyed := KeyedDiffs(d1, d2, d1.Keys + d2.Keys, path);
    assert ListDiffs(Arr(xs), Arr(ys), path, keyField) == Some(LengthDiff(xs, ys, path) + keyed);
    KeyedDiffsSplit(d1, d2, d1.Keys + d2.Keys, path, k);
    assert Diff(KeyedPath(path, k), Val(d1[k]), Missing) in KeyedDiff(d1, d2, k, path);
  }

  lemma {:induction false} SelfKeyedEmpty(d: map<Json, Json>, keys: set<Json>, path: string)
    ensures KeyedDiffs(d, d, keys, path) == multiset{}
    decreases |keys|
  {
    if keys != {} {
      var k :| k in keys;
      KeyedDiffsSplit(d, d, keys, path, k);
      if k in d {
        SelfDiffsEmpty(d[k], KeyedPath(path, k));
      }
      SelfKeyedEmpty(d, keys - {k}, path);
    }
  }

  /** A list compared with itself reports nothing (when it does not raise). */
  lemma {:induction false} ListSelfEmpty(l: Json, path: string, keyField: string)
    requires ListDiffs(l, l, path, keyField).Some?
    ensures ListDiffs(l, l, path, keyField).value == multiset{}
  {
    var xs := l.items;
    if UseKey(xs, xs, keyField) == Some(true) {
      var d := Index(xs, keyField).value;
      assert d.Keys + d.Keys == d.Keys;
      SelfKeyedEmpty(d, d.Keys, path);
    } else {
      SelfItemsEmpty(xs, path, |xs|);
    }
  }

  // ---------------------------------------------------------------------
  // compare_json_files

  /** The composition comparison looks at the second file only through the
    * sub-sections the first file has. */
  lemma {:induction false} SubsDiffsAgree(m1: map<string, Json>, m2: map<string, Json>, m2': map<string, Json>,
                                         section: string, keys: set<string>)
    requires keys <= m1.Keys
    requires forall j :: j in m1 ==> (j in m2 <==> j in m2')
    requires forall j :: j in m1 && j in m2 ==> m2[j] == m2'[j]
    ensures SubsDiffs(m1, Obj(m2), section, keys) == SubsDiffs(m1, Obj(m2'), section, keys)
    decreases |keys|
  {
    if keys != {} {
      var k :| k in keys;
      SubsDiffsSplit(m1, Obj(m2), section, keys, k);
      SubsDiffsSplit(m1, Obj(m2'), section, keys, k);
      SubDiffAgrees(m1, m2, m2', section, k);
      SubsDiffsAgree(m1, m2, m2', section, keys - {k});
    }
  }

  /** One sub-section reads only the second file's entry under its own name. */
  lemma {:induction false} SubDiffAgrees(m1: map<string, Json>, m2: map<string, Json>, m2': map<string, Json>, section: string, k: string)
    requires k in m1 && (k in m2 <==> k in m2')
    requires k in m2 ==> m2[k] == m2'[k]
    ensures SubDiff(m1, Obj(m2), section, k) == SubDiff(m1, Obj(m2'), section, k)
  {
    assert PyIn(Obj(m2), k) == PyIn(Obj(m2'), k);
  }

  /** Sub-sections present only in the second file are not reported. */
  lemma {:induction false} CompositionIgnoresExtra(c1: map<string, Json>, c2: map<string, Json>, section: string, k: string, v: Json)
    requires k !in c1
    ensures CompositionDiffs(Obj(c1), Obj(c2[k := v]), section) == CompositionDiffs(Obj(c1), Obj(c2), section)
  {
    SubsDiffsAgree(c1, c2, c2[k := v], section, c1.Keys);
  }

  /** A sub-section of the first file that the second lacks is reported as
    * `MISSING` at `composicion_portafolio.<sub>`. */
  lemma {:induction false} SubsectionMissingReported(c1: map<string, Json>, c2: map<string, Json>, section: string, k: string)
    requires k in c1 && k !in c2
    requires CompositionDiffs(Obj(c1), Obj(c2), section).Some?
    ensures Diff(section + "." + k, Val(c1[k]), Missing) in CompositionDiffs(Obj(c1), Obj(c2), section).value
  {
    SubsDiffsSplit(c1, Obj(c2), section, c1.Keys, k);
  }

  lemma {:induction false} SectionInSections(f1: map<string, Json>, f2: map<string, Json>, sections: seq<string>, i: nat)
    requires i < |sections|
    requires SectionsDiffs(f1, f2, sections).Some?
    ensures SectionDiffs(f1, f2, sections[i]).Some?
    ensures SectionDiffs(f1, f2, sections[i]).value <= SectionsDiffs(f1, f2, sections).value
  {
    PartInGather(SectionOf(f1, f2), sections, i);
  }

  /** A main section present in the first file only is reported as `MISSING`. */
  lemma {:induction false} SectionMissingRight(f1: map<string, Json>, f2: map<string, Json>, i: nat)
    requires i < |MainSections|
    requires MainSections[i] in f1 && MainSections[i] !in f2
    requires FileDiffs(f1, f2).Some?
    ensures Diff(MainSections[i], Val(f1[MainSections[i]]), Missing) in FileDiffs(f1, f2).value
  {
    SectionInSections(f1, f2, MainSections, i);
  }

  /** A main section present in the second file only is reported as `MISSING`. */
  lemma {:induction false} SectionMissingLeft(f1: map<string, Json>, f2: map<string, Json>, i: nat)
    requires i < |MainSections|
    requires MainSections[i] !in f1 && MainSections[i] in f2
    requires FileDiffs(f1, f2).Some?
    ensures Diff(MainSections[i], Missing, Val(f2[MainSections[i]])) in FileDiffs(f1, f2).value
  {
    SectionInSections(f1, f2, MainSections, i);
  }

  lemma {:induction false} SelfSubsEmpty(m: map<string, Json>, section: string, keys: set<string>)
    requires keys <= m.Keys
    requires SubsDiffs(m, Obj(m), section, keys).Some?
    ensures SubsDiffs(m, Obj(m), section, keys).value == multiset{}
    decreases |keys|
  {
    if keys != {} {
      var k :| k in keys;
      SubsDiffsSplit(m, Obj(m), section, keys, k);
      if k in CompositionCategories {
        ListSelfEmpty(m[k], section + "." + k, CategoryKey(k));
      }
      SelfSubsEmpty(m, section, keys - {k});
    }
  }

  /** A section compared with itself differs nowhere. */
  lemma {:induction false} SelfSectionEmpty(f: map<string, Json>, s: string)
    requires SectionDiffs(f, f, s).Some?
    ensures SectionDiffs(f, f, s).value == multiset{}
  {
    if s in f {
      if s == "plazo_duracion" {
        ListSelfEmpty(f[s], s, "plazo");
      } else if s == "principales_inversiones" {
        ListSelfEmpty(f[s], s, "emisor");
      } else if s == "rentabilidad_volatilidad" {
        ListSelfEmpty(f[s], s, "tipo_de_participacion");
      } else if s == "composicion_portafolio" {
        SelfSubsEmpty(f[s].fields, s, f[s].fields.Keys);
      } else {
        SelfDiffsEmpty(f[s], s);
      }
    }
  }

  lemma {:induction false} SelfSectionsEmpty(f: map<string, Json>, sections: seq<string>)
    requires SectionsDiffs(f, f, sections).Some?
    ensures SectionsDiffs(f, f, sections).value == multiset{}
  {
    forall s | SectionOf(f, f)(s).Some? ensures SectionOf(f, f)(s).value == multiset{} {
      SelfSectionEmpty(f, s);
    }
    GatherEmpty(SectionOf(f, f), sections);
  }

  /** A file compared with itself reports nothing (when it does not raise). */
  lemma {:induction false} SelfFileDiffsEmpty(f: map<string, Json>)
    requires FileDiffs(f, f).Some?
    ensures FileDiffs(f, f).value == multiset{}
  {
    SelfSectionsEmpty(f, MainSections);
  }

  // ---------------------------------------------------------------------
  // count_total_fields

  lemma {:induction false} KeysCountAtLeast(m: map<string, Json>, keys: set<string>)
    requires keys <= m.Keys
    ensures KeysCount(m, keys) >= |keys|
    decreases |keys|
  {
    if keys != {} {
      var k :| k in keys;
      KeysCountSplit(m, keys, k);
      KeysCountAtLeast(m, keys - {k});
    }
  }

  /** Every key of a dictionary counts at least once. */
  lemma {:induction false} FieldCountAtLeastKeys(m: map<string, Json>)
    ensures FieldCount(Obj(m)) >= |m|
  {
    KeysCountAtLeast(m, m.Keys);
  }

  lemma {:induction false} KeysCountAgree(m: map<string, Json>, m': map<string, Json>, keys: set<string>)
    requires keys <= m.Keys && keys <= m'.Keys
    requires forall j :: j in keys ==> m[j] == m'[j]
    ensures KeysCount(m, keys) == KeysCount(m', keys)
    decreases |keys|
  {
    if keys != {} {
      var k :| k in keys;
      KeysCountSplit(m, keys, k);
      KeysCountSplit(m', keys, k);
      KeysCountAgree(m, m', keys - {k});
    }
  }

  /** A new key counts one plus what its value holds. */
  lemma {:induction false} FieldCountInsert(m: map<string, Json>, k: string, v: Json)
    requires k !in m
    ensures FieldCount(Obj(m[k := v])) == FieldCount(Obj(m)) + 1 + FieldCount(v)
  {
    var m' := m[k := v];
    KeysCountSplit(m', m'.Keys, k);
    assert m'.Keys - {k} == m.Keys;
    KeysCountAgree(m, m', m.Keys);
  }

  lemma {:induction false} ItemsCountPrefix(xs: seq<Json>, ys: seq<Json>, n: nat)
    requires n <= |xs| && n <= |ys|
    requires forall i :: 0 <= i < n ==> xs[i] == ys[i]
    ensures ItemsCount(xs, n) == ItemsCount(ys, n)
  {
    if n > 0 {
      ItemsCountPrefix(xs, ys, n - 1);
    }
  }

  /** A list item contributes its contents only, not itself. */
  lemma {:induction false} FieldCountAppend(xs: seq<Json>, x: Json)
    ensures FieldCount(Arr(xs + [x])) == FieldCount(Arr(xs)) + FieldCount(x)
  {
    ItemsCountPrefix(xs, xs + [x], |xs|);
  }
}
