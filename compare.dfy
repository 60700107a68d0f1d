/**
 * The JSON comparison of the ETL quality report: `count_total_fields`,
 * `compare_values`, `compare_list_of_dicts` and `compare_json_files`.
 *
 * The scripts walk Python sets of keys, whose iteration order is not
 * defined, so the differences a comparison produces are specified as a
 * multiset. Each comparison is a method that accumulates differences in
 * loops, as the scripts do, and is proved to produce exactly the multiset
 * of a recursive specification function; the properties of the
 * comparison are lemmas about those functions (see CompareLemmas).
 */
module Compare {
  import opened Wrappers
  import opened Text
  import opened Json

  // ---------------------------------------------------------------------
  // Differences

  /** One side of a reported difference: a value, the marker `"MISSING"`,
    * the `"<type>: <value>"` text of a type mismatch, or the
    * `"Lista con <n> elementos"` text of a length mismatch. */
  datatype Side = Val(v: Json) | Missing | Typed(t: Json) | Length(n: nat)

  /** A `(path, left, right)` tuple. */
  datatype Diff = Diff(path: string, left: Side, right: Side)

  /** `f"{path}.{key}" if path else key`. */
  function ChildPath(path: string, key: string): (r: string)
    ensures path <= r
    ensures path == "" ==> r == key
    ensures path != "" ==> r == path + "." + key
  {
    if path == "" then key else path + "." + key
  }

  /** `f"{path}[{i}]"`. */
  function IndexPath(path: string, i: nat): (r: string)
    ensures path <= r
  {
    path + "[" + NatText(i) + "]"
  }

  /** `str(key)` for a hashable JSON value used as a matching key. */
  function KeyText(k: Json): string {
    match k
    case Str(s) => s
    case Int(i) => IntText(i)
    case Bool(b) => if b then "True" else "False"
    case Null => "None"
    case Num(_) => "float"
    case Arr(_) => "list"
    case Obj(_) => "dict"
  }

  /** `f"{path}[{key}]"` for a keyed list match. */
  function KeyedPath(path: string, key: Json): (r: string)
    ensures path <= r
  {
    path + "[" + KeyText(key) + "]"
  }

  function Min(a: nat, b: nat): nat {
    if a <= b then a else b
  }

  /** Both calls succeeded: their differences together; otherwise the
    * exception propagates (`None`). */
  function Join(a: Option<multiset<Diff>>, b: Option<multiset<Diff>>): (r: Option<multiset<Diff>>)
    ensures r.Some? <==> a.Some? && b.Some?
    ensures r.Some? ==> r.value == a.value + b.value
  {
    if a.Some? && b.Some? then Some(a.value + b.value) else None
  }

  lemma {:induction false} JoinSwap(a: Option<multiset<Diff>>, b: Option<multiset<Diff>>, c: Option<multiset<Diff>>)
    ensures Join(a, Join(b, c)) == Join(b, Join(a, c))
  {
    if a.Some? && b.Some? && c.Some? {
      assert a.value + (b.value + c.value) == b.value + (a.value + c.value);
    }
  }

  lemma {:induction false} JoinAssoc(a: Option<multiset<Diff>>, b: Option<multiset<Diff>>, c: Option<multiset<Diff>>)
    ensures Join(a, Join(b, c)) == Join(Join(a, b), c)
  {
    if a.Some? && b.Some? && c.Some? {
      assert a.value + (b.value + c.value) == (a.value + b.value) + c.value;
    }
  }

  lemma {:induction false} JoinEmpty(a: Option<multiset<Diff>>)
    ensures Join(Some(multiset{}), a) == a
  {
    if a.Some? {
      assert multiset{} + a.value == a.value;
    }
  }

  /** The multiset view of a method's list of differences. */
  function Bag(r: Option<seq<Diff>>): Option<multiset<Diff>> {
    match r
    case None => None
    case Some(ds) => Some(multiset(ds))
  }

  /** A loop that appends the differences of one more element keeps the
    * accumulated ones plus those still to come equal to the total. */
  lemma {:induction false} Accumulate(diffs: seq<Diff>, part: seq<Diff>, here: multiset<Diff>, later: multiset<Diff>, total: multiset<Diff>)
    requires multiset(diffs) + (here + later) == total
    requires multiset(part) == here
    ensures multiset(diffs + part) + later == total
  {
  }

  // ---------------------------------------------------------------------
  // Specification of count_total_fields

  /** The number of dictionary keys anywhere inside `v`. */
  ghost function FieldCount(v: Json): nat
    decreases v, 1, 0
  {
    match v
    case Obj(m) => KeysCount(m, m.Keys)
    case Arr(xs) => ItemsCount(xs, |xs|)
    case _ => 0
  }

  ghost function KeysCount(m: map<string, Json>, keys: set<string>): nat
    requires keys <= m.Keys
    decreases Obj(m), 0, |keys|
  {
    if keys == {} then 0
    else
      var k :| k in keys;
      1 + FieldCount(m[k]) + KeysCount(m, keys - {k})
  }

  ghost function ItemsCount(xs: seq<Json>, n: nat): nat
    requires n <= |xs|
    decreases Arr(xs), 0, n
  {
    if n == 0 then 0 else ItemsCount(xs, n - 1) + FieldCount(xs[n - 1])
  }

  /** The sum over a set of keys does not depend on the order they are taken in. */
  lemma {:induction false} KeysCountSplit(m: map<string, Json>, keys: set<string>, k: string)
    requires keys <= m.Keys && k in keys
    ensures KeysCount(m, keys) == 1 + FieldCount(m[k]) + KeysCount(m, keys - {k})
    decreases |keys|
  {
    var j :| j in keys && KeysCount(m, keys) == 1 + FieldCount(m[j]) + KeysCount(m, keys - {j});
    if j != k {
      KeysCountSplit(m, keys - {j}, k);
      KeysCountSplit(m, keys - {k}, j);
      assert keys - {j} - {k} == keys - {k} - {j};
    }
  }

  // ---------------------------------------------------------------------
  // Specification of compare_values

  /** The differences `compare_values(a, b, path)` reports. */
  ghost function Diffs(a: Json, b: Json, path: string): multiset<Diff>
    decreases a, 1, 0
  {
    if !SameType(a, b) then multiset{Diff(path, Typed(a), Typed(b))}
    else
      match (a, b)
      case (Obj(m1), Obj(m2)) => KeysDiffs(m1, m2, m1.Keys + m2.Keys, path)
      case (Arr(xs), Arr(ys)) =>
        if |xs| != |ys| then multiset{Diff(path, Length(|xs|), Length(|ys|))}
        else ItemsDiffs(xs, ys, path, |xs|)
      case _ => if a != b then multiset{Diff(path, Val(a), Val(b))} else multiset{}
  }

  /** What one key of the union of two dictionaries contributes. */
  ghost function KeyDiff(m1: map<string, Json>, m2: map<string, Json>, k: string, path: string): multiset<Diff>
    decreases Obj(m1), 0, 0
  {
    var p := ChildPath(path, k);
    if k in m1 && k in m2 then Diffs(m1[k], m2[k], p)
    else if k in m1 then multiset{Diff(p, Val(m1[k]), Missing)}
    else if k in m2 then multiset{Diff(p, Missing, Val(m2[k]))}
    else multiset{}
  }

  ghost function KeysDiffs(m1: map<string, Json>, m2: map<string, Json>, keys: set<string>, path: string): multiset<Diff>
    decreases Obj(m1), 0, |keys|
  {
    if keys == {} then multiset{}
    else
      var k :| k in keys;
      KeyDiff(m1, m2, k, path) + KeysDiffs(m1, m2, keys - {k}, path)
  }

  /** Position-wise differences of the first `n` items. */
  ghost function ItemsDiffs(xs: seq<Json>, ys: seq<Json>, path: string, n: nat): multiset<Diff>
    requires n <= |xs| && n <= |ys|
    decreases Arr(xs), 0, n
  {
    if n == 0 then multiset{}
    else ItemsDiffs(xs, ys, path, n - 1) + Diffs(xs[n - 1], ys[n - 1], IndexPath(path, n - 1))
  }

  lemma {:induction false} KeysDiffsSplit(m1: map<string, Json>, m2: map<string, Json>, keys: set<string>, path: string, k: string)
    requires k in keys
    ensures KeysDiffs(m1, m2, keys, path) == KeyDiff(m1, m2, k, path) + KeysDiffs(m1, m2, keys - {k}, path)
    decreases |keys|
  {
    var j :| j in keys && KeysDiffs(m1, m2, keys, path) == KeyDiff(m1, m2, j, path) + KeysDiffs(m1, m2, keys - {j}, path);
    if j != k {
      KeysDiffsSplit(m1, m2, keys - {j}, path, k);
      KeysDiffsSplit(m1, m2, keys - {k}, path, j);
      assert keys - {j} - {k} == keys - {k} - {j};
    }
  }

  // ---------------------------------------------------------------------
  // Specification of compare_list_of_dicts

  /** `item[key_field]` used as a dictionary key: `None` when the item is
    * not a dict, lacks the key, or the key value is unhashable. */
  function KeyOf(item: Json, keyField: string): (r: Option<Json>)
    ensures r.Some? <==> item.Obj? && keyField in item.fields && Hashable(item.fields[keyField])
    ensures r.Some? ==> r.value == item.fields[keyField]
  {
    if item.Obj? && keyField in item.fields && Hashable(item.fields[keyField])
    then Some(item.fields[keyField]) else None
  }

  /** `{item[key_field]: item for item in items}`: a later item with the
    * same key replaces an earlier one; `None` when the comprehension raises. */
  function Index(items: seq<Json>, keyField: string): Option<map<Json, Json>> {
    if items == [] then Some(map[])
    else
      match Index(items[..|items| - 1], keyField)
      case None => None
      case Some(d) =>
        var item := items[|items| - 1];
        match KeyOf(item, keyField)
        case None => None
        case Some(k) => Some(d[k := item])
  }

  /** The guard `key_field and list1 and list2 and key_field in list1[0]
    * and key_field in list2[0]`, evaluated left to right; `None` when an
    * `in` raises. */
  function UseKey(xs: seq<Json>, ys: seq<Json>, keyField: string): (r: Option<bool>)
    ensures keyField == "" || xs == [] || ys == [] ==> r == Some(false)
  {
    if keyField == "" || xs == [] || ys == [] then Some(false)
    else
      match PyIn(xs[0], keyField)
      case None => None
      case Some(false) => Some(false)
      case Some(true) => PyIn(ys[0], keyField)
  }

  ghost function KeyedDiff(d1: map<Json, Json>, d2: map<Json, Json>, k: Json, path: string): multiset<Diff> {
    var p := KeyedPath(path, k);
    if k in d1 && k in d2 then Diffs(d1[k], d2[k], p)
    else if k in d1 then multiset{Diff(p, Val(d1[k]), Missing)}
    else if k in d2 then multiset{Diff(p, Missing, Val(d2[k]))}
    else multiset{}
  }

  ghost function KeyedDiffs(d1: map<Json, Json>, d2: map<Json, Json>, keys: set<Json>, path: string): multiset<Diff>
    decreases |keys|
  {
    if keys == {} then multiset{}
    else
      var k :| k in keys;
      KeyedDiff(d1, d2, k, path) + KeyedDiffs(d1, d2, keys - {k}, path)
  }

  lemma {:induction false} SwapUnion(a: multiset<Diff>, b: multiset<Diff>, rest: multiset<Diff>)
    ensures a + (b + rest) == b + (a + rest)
  {
  }

  lemma {:induction false} KeyedDiffsSplit(d1: map<Json, Json>, d2: map<Json, Json>, keys: set<Json>, path: string, k: Json)
    requires k in keys
    ensures KeyedDiffs(d1, d2, keys, path) == KeyedDiff(d1, d2, k, path) + KeyedDiffs(d1, d2, keys - {k}, path)
    decreases |keys|
  {
    var j :| j in keys && KeyedDiffs(d1, d2, keys, path) == KeyedDiff(d1, d2, j, path) + KeyedDiffs(d1, d2, keys - {j}, path);
    if j != k {
      var both := keys - {j} - {k};
      assert keys - {k} - {j} == both;
      KeyedDiffsSplit(d1, d2, keys - {j}, path, k);
      KeyedDiffsSplit(d1, d2, keys - {k}, path, j);
      var a, b, rest := KeyedDiff(d1, d2, j, path), KeyedDiff(d1, d2, k, path), KeyedDiffs(d1, d2, both, path);
      assert KeyedDiffs(d1, d2, keys - {j}, path) == b + rest;
      assert KeyedDiffs(d1, d2, keys - {k}, path) == a + rest;
      SwapUnion(a, b, rest);
    }
  }

  /** The length-mismatch entry `compare_list_of_dicts` reports first. */
  function LengthDiff(xs: seq<Json>, ys: seq<Json>, path: string): multiset<Diff> {
    if |xs| != |ys| then multiset{Diff(path, Length(|xs|), Length(|ys|))} else multiset{}
  }

  /** The differences `compare_list_of_dicts(l1, l2, path, key_field)`
    * reports, or `None` when it raises. Both arguments must be lists. */
  ghost function ListDiffs(l1: Json, l2: Json, path: string, keyField: string): Option<multiset<Diff>> {
    if !l1.Arr? || !l2.Arr? then None
    else
      var xs, ys := l1.items, l2.items;
      match UseKey(xs, ys, keyField)
      case None => None
      case Some(false) => Some(LengthDiff(xs, ys, path) + ItemsDiffs(xs, ys, path, Min(|xs|, |ys|)))
      case Some(true) =>
        var i1, i2 := Index(xs, keyField), Index(ys, keyField);
        if i1.None? || i2.None? then None
        else Some(LengthDiff(xs, ys, path) + KeyedDiffs(i1.value, i2.value, i1.value.Keys + i2.value.Keys, path))
  }

  // ---------------------------------------------------------------------
  // Specification of compare_json_files

  const MainSections: seq<string> :=
    ["fic", "plazo_duracion", "composicion_portafolio", "caracteristicas",
     "calificacion", "principales_inversiones", "rentabilidad_volatilidad"]

  const CompositionCategories: seq<string> :=
    ["por_activo", "por_tipo_de_renta", "por_sector_economico",
     "por_pais_emisor", "por_moneda", "por_calificacion"]

  /** The matching key of a composition category. */
  function CategoryKey(sub: string): string {
    if sub == "por_activo" then "activo"
    else if sub == "por_tipo_de_renta" then "tipo"
    else if sub == "por_sector_economico" then "sector"
    else if sub == "por_pais_emisor" then "pais"
    else if sub == "por_moneda" then "moneda"
    else "calificacion"
  }

  /** What one sub-section of the first file's `composicion_portafolio` contributes. */
  ghost function SubDiff(m1: map<string, Json>, c2: Json, section: string, k: string): Option<multiset<Diff>>
    requires k in m1
  {
    var subPath := section + "." + k;
    match PyIn(c2, k)
    case None => None
    case Some(false) => Some(multiset{Diff(subPath, Val(m1[k]), Missing)})
    case Some(true) =>
      if k in CompositionCategories then
        if c2.Obj? then ListDiffs(m1[k], c2.fields[k], subPath, CategoryKey(k)) else None
      else Some(multiset{})
  }

  ghost function SubsDiffs(m1: map<string, Json>, c2: Json, section: string, keys: set<string>): Option<multiset<Diff>>
    requires keys <= m1.Keys
    decreases |keys|
  {
    if keys == {} then Some(multiset{})
    else
      var k :| k in keys;
      Join(SubDiff(m1, c2, section, k), SubsDiffs(m1, c2, section, keys - {k}))
  }

  lemma {:induction false} SubsDiffsSplit(m1: map<string, Json>, c2: Json, section: string, keys: set<string>, k: string)
    requires keys <= m1.Keys && k in keys
    ensures SubsDiffs(m1, c2, section, keys) == Join(SubDiff(m1, c2, section, k), SubsDiffs(m1, c2, section, keys - {k}))
    decreases |keys|
  {
    var j :| j in keys && SubsDiffs(m1, c2, section, keys) == Join(SubDiff(m1, c2, section, j), SubsDiffs(m1, c2, section, keys - {j}));
    if j != k {
      SubsDiffsSplit(m1, c2, section, keys - {j}, k);
      SubsDiffsSplit(m1, c2, section, keys - {k}, j);
      assert keys - {j} - {k} == keys - {k} - {j};
      JoinSwap(SubDiff(m1, c2, section, j), SubDiff(m1, c2, section, k), SubsDiffs(m1, c2, section, keys - {j} - {k}));
    }
  }

  /** The `composicion_portafolio` branch; the first file's section must be a dict. */
  ghost function CompositionDiffs(c1: Json, c2: Json, section: string): Option<multiset<Diff>> {
    if c1.Obj? then SubsDiffs(c1.fields, c2, section, c1.fields.Keys) else None
  }

  /** What one main section contributes. */
  ghost function SectionDiffs(f1: map<string, Json>, f2: map<string, Json>, s: string): Option<multiset<Diff>> {
    if s in f1 && s in f2 then
      if s == "plazo_duracion" then ListDiffs(f1[s], f2[s], s, "plazo")
      else if s == "principales_inversiones" then ListDiffs(f1[s], f2[s], s, "emisor")
      else if s == "rentabilidad_volatilidad" then ListDiffs(f1[s], f2[s], s, "tipo_de_participacion")
      else if s == "composicion_portafolio" then CompositionDiffs(f1[s], f2[s], s)
      else Some(Diffs(f1[s], f2[s], s))
    else if s in f1 then Some(multiset{Diff(s, Val(f1[s]), Missing)})
    else if s in f2 then Some(multiset{Diff(s, Missing, Val(f2[s]))})
    else Some(multiset{})
  }

  /** The sections' contributions joined in order: `None` once one is `None`. */
  ghost function Gather(part: string -> Option<multiset<Diff>>, sections: seq<string>): Option<multiset<Diff>> {
    if sections == [] then Some(multiset{})
    else Join(Gather(part, sections[..|sections| - 1]), part(sections[|sections| - 1]))
  }

  lemma {:induction false} GatherStep(part: string -> Option<multiset<Diff>>, sections: seq<string>, i: nat)
    requires i < |sections|
    ensures Gather(part, sections[..i + 1]) == Join(Gather(part, sections[..i]), part(sections[i]))
  {
    assert sections[..i + 1][..i] == sections[..i];
  }

  /** Once a contribution is `None`, so is the whole. */
  lemma {:induction false} GatherNoneStays(part: string -> Option<multiset<Diff>>, sections: seq<string>, n: nat)
    requires n <= |sections|
    requires Gather(part, sections[..n]) == None
    ensures Gather(part, sections) == None
    decreases |sections| - n
  {
    if n < |sections| {
      GatherStep(part, sections, n);
      GatherNoneStays(part, sections, n + 1);
    } else {
      assert sections[..n] == sections;
    }
  }

  /** Every contribution is part of the whole. */
  lemma {:induction false} PartInGather(part: string -> Option<multiset<Diff>>, sections: seq<string>, i: nat)
    requires i < |sections|
    requires Gather(part, sections).Some?
    ensures part(sections[i]).Some?
    ensures part(sections[i]).value <= Gather(part, sections).value
  {
    var n := |sections| - 1;
    if i < n {
      PartInGather(part, sections[..n], i);
      assert sections[..n][i] == sections[i];
    }
  }

  /** Contributions that are all empty gather to nothing. */
  lemma {:induction false} GatherEmpty(part: string -> Option<multiset<Diff>>, sections: seq<string>)
    requires forall s :: part(s).Some? ==> part(s).value == multiset{}
    requires Gather(part, sections).Some?
    ensures Gather(part, sections).value == multiset{}
  {
    if sections != [] {
      GatherEmpty(part, sections[..|sections| - 1]);
    }
  }

  ghost function SectionOf(f1: map<string, Json>, f2: map<string, Json>): string -> Option<multiset<Diff>> {
    s => SectionDiffs(f1, f2, s)
  }

  ghost function SectionsDiffs(f1: map<string, Json>, f2: map<string, Json>, sections: seq<string>): Option<multiset<Diff>> {
    Gather(SectionOf(f1, f2), sections)
  }

  /** The differences `compare_json_files(f1, f2)` reports, or `None`
    * when it raises. */
  ghost function FileDiffs(f1: map<string, Json>, f2: map<string, Json>): Option<multiset<Diff>> {
    SectionsDiffs(f1, f2, MainSections)
  }

  // ---------------------------------------------------------------------
  // The scripts' procedures

  /** `count_fields(obj)`: one per dictionary key plus what its value
    * holds; list items contribute their contents only. */
  method CountFields(obj: Json) returns (count: nat)
    ensures count == FieldCount(obj)
    decreases obj
  {
    count := 0;
    match obj
    case Obj(m) =>
      var rest := m.Keys;
      while rest != {}
        invariant rest <= m.Keys
        invariant count + KeysCount(m, rest) == KeysCount(m, m.Keys)
        decreases |rest|
      {
        var key :| key in rest;
        KeysCountSplit(m, rest, key);
        var c := CountFields(m[key]);
        count := count + 1 + c;
        rest := rest - {key};
      }
    case Arr(xs) =>
      var i := 0;
      while i < |xs|
        invariant i <= |xs|
        invariant count == ItemsCount(xs, i)
      {
        var c := CountFields(xs[i]);
        count := count + c;
        i := i + 1;
      }
    case _ =>
  }

  /** `count_total_fields(data)`. */
  method CountTotalFields(data: map<string, Json>) returns (count: nat)
    ensures count == FieldCount(Obj(data))
  {
    count := CountFields(Obj(data));
  }

  /** `compare_values(v1, v2, path)`. */
  method CompareValues(v1: Json, v2: Json, path: string) returns (diffs: seq<Diff>)
    ensures multiset(diffs) == Diffs(v1, v2, path)
    ensures !SameType(v1, v2) ==> diffs == [Diff(path, Typed(v1), Typed(v2))]
    ensures v1.Arr? && v2.Arr? && |v1.items| != |v2.items| ==>
      diffs == [Diff(path, Length(|v1.items|), Length(|v2.items|))]
    decreases v1, 2
  {
    if !SameType(v1, v2) {
      diffs := [Diff(path, Typed(v1), Typed(v2))];
    } else if v1.Obj? && v2.Obj? {
      diffs := CompareFields(v1.fields, v2.fields, path);
    } else if v1.Arr? && v2.Arr? {
      if |v1.items| != |v2.items| {
        diffs := [Diff(path, Length(|v1.items|), Length(|v2.items|))];
      } else {
        diffs := CompareItems(v1.items, v2.items, path, |v1.items|);
      }
    } else if v1 != v2 {
      diffs := [Diff(path, Val(v1), Val(v2))];
    } else {
      diffs := [];
    }
  }

  /** The dictionary branch of `compare_values`: the loop over the union of the keys. */
  method CompareFields(m1: map<string, Json>, m2: map<string, Json>, path: string) returns (diffs: seq<Diff>)
    ensures multiset(diffs) == KeysDiffs(m1, m2, m1.Keys + m2.Keys, path)
    decreases Obj(m1), 1
  {
    diffs := [];
    var all := m1.Keys + m2.Keys;
    var rest := all;
    while rest != {}
      invariant rest <= all
      invariant multiset(diffs) + KeysDiffs(m1, m2, rest, path) == KeysDiffs(m1, m2, all, path)
      decreases |rest|
    {
      var key :| key in rest;
      KeysDiffsSplit(m1, m2, rest, path, key);
      var part := CompareKey(m1, m2, key, path);
      Accumulate(diffs, part, KeyDiff(m1, m2, key, path), KeysDiffs(m1, m2, rest - {key}, path), KeysDiffs(m1, m2, all, path));
      diffs := diffs + part;
      rest := rest - {key};
    }
  }

  /** One iteration of the dictionary loop of `compare_values`. */
  method CompareKey(m1: map<string, Json>, m2: map<string, Json>, key: string, path: string) returns (part: seq<Diff>)
    ensures multiset(part) == KeyDiff(m1, m2, key, path)
    decreases Obj(m1), 0
  {
    var newPath := ChildPath(path, key);
    if key in m1 && key in m2 {
      part := CompareValues(m1[key], m2[key], newPath);
    } else if key in m1 {
      part := [Diff(newPath, Val(m1[key]), Missing)];
    } else if key in m2 {
      part := [Diff(newPath, Missing, Val(m2[key]))];
    } else {
      part := [];
    }
  }

  /** The `zip` loop over the first `n` items, shared by `compare_values`
    * and the position-wise branch of `compare_list_of_dicts`. */
  method CompareItems(xs: seq<Json>, ys: seq<Json>, path: string, n: nat) returns (diffs: seq<Diff>)
    requires n <= |xs| && n <= |ys|
    ensures multiset(diffs) == ItemsDiffs(xs, ys, path, n)
    decreases Arr(xs), 1
  {
    diffs := [];
    var i := 0;
    while i < n
      invariant i <= n
      invariant multiset(diffs) == ItemsDiffs(xs, ys, path, i)
    {
      var sub := CompareValues(xs[i], ys[i], IndexPath(path, i));
      diffs := diffs + sub;
      i := i + 1;
    }
  }

  /** The keyed branch of `compare_list_of_dicts`: the loop over the union
    * of the two indexes' keys. */
  method CompareKeyed(d1: map<Json, Json>, d2: map<Json, Json>, path: string) returns (diffs: seq<Diff>)
    ensures multiset(diffs) == KeyedDiffs(d1, d2, d1.Keys + d2.Keys, path)
  {
    diffs := [];
    var all := d1.Keys + d2.Keys;
    var rest := all;
    while rest != {}
      invariant rest <= all
      invariant multiset(diffs) + KeyedDiffs(d1, d2, rest, path) == KeyedDiffs(d1, d2, all, path)
      decreases |rest|
    {
      var key :| key in rest;
      KeyedDiffsSplit(d1, d2, rest, path, key);
      var newPath := KeyedPath(path, key);
      var part: seq<Diff>;
      if key in d1 && key in d2 {
        part := CompareValues(d1[key], d2[key], newPath);
      } else if key in d1 {
        part := [Diff(newPath, Val(d1[key]), Missing)];
      } else {
        part := [Diff(newPath, Missing, Val(d2[key]))];
      }
      assert multiset(part) == KeyedDiff(d1, d2, key, path);
      Accumulate(diffs, part, KeyedDiff(d1, d2, key, path), KeyedDiffs(d1, d2, rest - {key}, path), KeyedDiffs(d1, d2, all, path));
      diffs := diffs + part;
      rest := rest - {key};
    }
  }

  /** `compare_list_of_dicts(l1, l2, path, key_field)`; `None` when it raises. */
  method CompareListOfDicts(l1: Json, l2: Json, path: string, keyField: string) returns (r: Option<seq<Diff>>)
    ensures Bag(r) == ListDiffs(l1, l2, path, keyField)
  {
    if !l1.Arr? || !l2.Arr? {
      return None;
    }
    var xs, ys := l1.items, l2.items;
    var diffs: seq<Diff> := [];
    if |xs| != |ys| {
      diffs := [Diff(path, Length(|xs|), Length(|ys|))];
    }
    assert multiset(diffs) == LengthDiff(xs, ys, path);
    var useKey := UseKey(xs, ys, keyField);
    if useKey.None? {
      return None;
    }
    var rest: seq<Diff>;
    if useKey.value {
      var i1 := Index(xs, keyField);
      var i2 := Index(ys, keyField);
      if i1.None? || i2.None? {
        return None;
      }
      rest := CompareKeyed(i1.value, i2.value, path);
    } else {
      rest := CompareItems(xs, ys, path, Min(|xs|, |ys|));
    }
    return Some(diffs + rest);
  }

  /** The `composicion_portafolio` loop of `compare_json_files`. */
  method CompareComposition(c1: Json, c2: Json, section: string) returns (r: Option<seq<Diff>>)
    ensures Bag(r) == CompositionDiffs(c1, c2, section)
  {
    if !c1.Obj? {
      return None;
    }
    var m1 := c1.fields;
    var diffs: seq<Diff> := [];
    var rest := m1.Keys;
    JoinEmpty(SubsDiffs(m1, c2, section, rest));
    while rest != {}
      invariant rest <= m1.Keys
      invariant Join(Some(multiset(diffs)), SubsDiffs(m1, c2, section, rest)) == SubsDiffs(m1, c2, section, m1.Keys)
      decreases |rest|
    {
      var sub :| sub in rest;
      SubsDiffsSplit(m1, c2, section, rest, sub);
      var part := CompareSubsection(m1, c2, section, sub);
      if part.None? {
        return None;
      }
      JoinAssoc(Some(multiset(diffs)), SubDiff(m1, c2, section, sub), SubsDiffs(m1, c2, section, rest - {sub}));
      diffs := diffs + part.value;
      rest := rest - {sub};
    }
    assert SubsDiffs(m1, c2, section, rest) == Some(multiset{});
    assert multiset(diffs) + multiset{} == multiset(diffs);
    return Some(diffs);
  }

  /** One iteration of the `composicion_portafolio` loop. */
  method CompareSubsection(m1: map<string, Json>, c2: Json, section: string, sub: string) returns (r: Option<seq<Diff>>)
    requires sub in m1
    ensures Bag(r) == SubDiff(m1, c2, section, sub)
  {
    var subPath := section + "." + sub;
    var present := PyIn(c2, sub);
    if present.None? {
      return None;
    }
    if !present.value {
      return Some([Diff(subPath, Val(m1[sub]), Missing)]);
    }
    if sub !in CompositionCategories {
      return Some([]);
    }
    if !c2.Obj? {
      return None;
    }
    r := CompareListOfDicts(m1[sub], c2.fields[sub], subPath, CategoryKey(sub));
  }

  /** One iteration of the main-section loop of `compare_json_files`. */
  method CompareSection(f1: map<string, Json>, f2: map<string, Json>, s: string) returns (r: Option<seq<Diff>>)
    ensures Bag(r) == SectionDiffs(f1, f2, s)
  {
    if s in f1 && s in f2 {
      if s == "plazo_duracion" {
        r := CompareListOfDicts(f1[s], f2[s], s, "plazo");
      } else if s == "principales_inversiones" {
        r := CompareListOfDicts(f1[s], f2[s], s, "emisor");
      } else if s == "rentabilidad_volatilidad" {
        r := CompareListOfDicts(f1[s], f2[s], s, "tipo_de_participacion");
      } else if s == "composicion_portafolio" {
        r := CompareComposition(f1[s], f2[s], s);
      } else {
        var d := CompareValues(f1[s], f2[s], s);
        r := Some(d);
      }
    } else if s in f1 {
      r := Some([Diff(s, Val(f1[s]), Missing)]);
    } else if s in f2 {
      r := Some([Diff(s, Missing, Val(f2[s]))]);
    } else {
      r := Some([]);
    }
  }

  /** `compare_json_files(f1, f2)`: the differences (`None` when it
    * raises) and the field count of the first file. */
  method CompareJsonFiles(f1: map<string, Json>, f2: map<string, Json>) returns (r: Option<seq<Diff>>, totalFields: nat)
    ensures Bag(r) == FileDiffs(f1, f2)
    ensures totalFields == FieldCount(Obj(f1))
  {
    totalFields := CountTotalFields(f1);
    r := CompareSections(f1, f2, MainSections);
  }

  /** The main-section loop of `compare_json_files` over `sections`, in
    * order, stopping at the first section that raises. */
  method CompareSections(f1: map<string, Json>, f2: map<string, Json>, sections: seq<string>) returns (r: Option<seq<Diff>>)
    ensures Bag(r) == SectionsDiffs(f1, f2, sections)
  {
    var diffs: seq<Diff> := [];
    var i := 0;
    while i < |sections|
      invariant i <= |sections|
      invariant SectionsDiffs(f1, f2, sections[..i]) == Some(multiset(diffs))
    {
      SectionsStep(f1, f2, sections, i);
      var part := CompareSection(f1, f2, sections[i]);
      if part.None? {
        SectionsNoneStays(f1, f2, sections, i + 1);
        return None;
      }
      assert multiset(diffs + part.value) == multiset(diffs) + multiset(part.value);
      diffs := diffs + part.value;
      i := i + 1;
    }
    assert sections[..i] == sections;
    return Some(diffs);
  }

  lemma {:induction false} SectionsStep(f1: map<string, Json>, f2: map<string, Json>, sections: seq<string>, i: nat)
    requires i < |sections|
    ensures SectionsDiffs(f1, f2, sections[..i + 1])
      == Join(SectionsDiffs(f1, f2, sections[..i]), SectionDiffs(f1, f2, sections[i]))
  {
    GatherStep(SectionOf(f1, f2), sections, i);
  }

  /** Once a section raises, the whole comparison raises. */
  lemma {:induction false} SectionsNoneStays(f1: map<string, Json>, f2: map<string, Json>, sections: seq<string>, n: nat)
    requires n <= |sections|
    requires SectionsDiffs(f1, f2, sections[..n]) == None
    ensures SectionsDiffs(f1, f2, sections) == None
  {
    GatherNoneStays(SectionOf(f1, f2), sections, n);
  }
}
