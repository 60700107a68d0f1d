/**
 * JSON values as Python's `json.load` produces them (`None`, `bool`, `int`,
 * `float`, `str`, `list`, `dict`), and the few Python operations on them the
 * modelled scripts use: `type()`, truthiness, `dict.get` and `in`.
 */
module Json {
  import opened Wrappers
  import opened Text

  /** A decoded JSON value. Dictionary key order is not part of the model. */
  datatype Json =
    | Null
    | Bool(b: bool)
    | Int(i: int)
    | Num(r: real)
    | Str(s: string)
    | Arr(items: seq<Json>)
    | Obj(fields: map<string, Json>)

  /** Python's `type(v).__name__`. */
  function TypeName(v: Json): (r: string)
    ensures r in {"NoneType", "bool", "int", "float", "str", "list", "dict"}
  {
    match v
    case Null => "NoneType"
    case Bool(_) => "bool"
    case Int(_) => "int"
    case Num(_) => "float"
    case Str(_) => "str"
    case Arr(_) => "list"
    case Obj(_) => "dict"
  }

  /** `type(a) == type(b)`: `bool` and `int`, `int` and `float` differ. */
  predicate SameType(a: Json, b: Json) {
    TypeName(a) == TypeName(b)
  }

  lemma {:induction false} SameTypeConstructor(a: Json, b: Json)
    ensures SameType(a, b) <==>
      (a.Null? && b.Null?) || (a.Bool? && b.Bool?) || (a.Int? && b.Int?)
      || (a.Num? && b.Num?) || (a.Str? && b.Str?) || (a.Arr? && b.Arr?)
      || (a.Obj? && b.Obj?)
  {
  }

  /** Python truthiness. */
  predicate Truthy(v: Json) {
    match v
    case Null => false
    case Bool(b) => b
    case Int(i) => i != 0
    case Num(r) => r != 0.0
    case Str(s) => s != ""
    case Arr(xs) => xs != []
    case Obj(m) => m != map[]
  }

  /** `d.get(k, default)`. */
  function Get(m: map<string, Json>, k: string, default: Json): (r: Json)
    ensures k in m ==> r == m[k]
    ensures k !in m ==> r == default
  {
    if k in m then m[k] else default
  }

  /** Python's `key in container` for a string key: a key test on a dict,
    * a substring test on a str, an equality test against the items of a
    * list; any other container raises `TypeError` (`None`). */
  function PyIn(container: Json, key: string): (r: Option<bool>)
    ensures container.Obj? ==> r == Some(key in container.fields)
    ensures container.Str? ==> r == Some(Contains(container.s, key))
    ensures container.Arr? ==> r == Some(Str(key) in container.items)
    ensures r.None? <==> !(container.Obj? || container.Str? || container.Arr?)
  {
    match container
    case Obj(m) => Some(key in m)
    case Str(s) => Some(Contains(s, key))
    case Arr(xs) => Some(Str(key) in xs)
    case _ => None
  }

  /** Values Python can use as dictionary keys. */
  predicate Hashable(v: Json) {
    !v.Arr? && !v.Obj?
  }

  /** The items `for item in v` hands to a body that needs each item to be
    * a dict (`item.get(...)`, `item['k']`): a list gives its elements; an
    * empty str or dict gives none; a non-empty str or dict gives str items,
    * on which the body raises; `None`, a number or a bool is not iterable.
    * `None` stands for the exception. */
  function Items(v: Json): (r: Option<seq<Json>>)
    ensures v.Arr? ==> r == Some(v.items)
    ensures r.Some? && !v.Arr? ==> r == Some([])
  {
    match v
    case Arr(xs) => Some(xs)
    case Str(s) => if s == "" then Some([]) else None
    case Obj(m) => if m == map[] then Some([]) else None
    case _ => None
  }
}
