/**
 * `normalize_data` of `src/etl/transform.py`: a shallow copy of the
 * document with `plazoDuracion` renamed to `plazo_duracion` and the
 * `por_activo` items of the composition rewritten.
 *
 * The copy is shallow, so a dict held at the top level of the document is
 * one object shared by the caller's document and the copy. Such dicts are
 * objects of class `Dict` here; every other value is a JSON value.
 */
module Normalize {
  import opened Wrappers
  import opened Json

  /** A dict object whose entries can be reassigned in place. */
  class Dict {
    var fields: map<string, Json>

    constructor(fields: map<string, Json>)
      ensures this.fields == fields
    {
      this.fields := fields;
    }
  }

  /** A value held at the top level of a document: a dict object, or any
    * other JSON value. */
  datatype Value = Shared(dict: Dict) | Plain(json: Json)

  /** The top-level dict of a document. */
  class Document {
    var entries: map<string, Value>

    /** Every top-level dict is an object. */
    predicate Valid()
      reads this
    {
      forall k :: k in entries && entries[k].Plain? ==> !entries[k].json.Obj?
    }

    constructor(entries: map<string, Value>)
      ensures this.entries == entries
    {
      this.entries := entries;
    }
  }

  const Composition: string := "composicion_portafolio"

  /** `normalized['plazo_duracion'] = normalized.pop('plazoDuracion')` when
    * the key is there: the value moves to `plazo_duracion`, replacing what
    * that key held, and nothing else changes. */
  function RenamePlazo<V>(entries: map<string, V>): (r: map<string, V>)
    ensures "plazoDuracion" in entries ==>
      && "plazoDuracion" !in r
      && "plazo_duracion" in r && r["plazo_duracion"] == entries["plazoDuracion"]
      && r.Keys == entries.Keys - {"plazoDuracion"} + {"plazo_duracion"}
    ensures "plazoDuracion" !in entries ==> r == entries
    ensures forall k :: k in entries && k != "plazoDuracion" && k != "plazo_duracion" ==> k in r && r[k] == entries[k]
  {
    if "plazoDuracion" in entries then
      (entries - {"plazoDuracion"})["plazo_duracion" := entries["plazoDuracion"]]
    else entries
  }

  /** The new form of one `por_activo` item. */
  function ActivoItem(item: map<string, Json>): Json
    requires "activo" in item
  {
    Obj(map["activo" := item["activo"], "participacion" := Get(item, "porcentaje_participacion", Null)])
  }

  /** The comprehension over `comp['por_activo']`: `None` when it raises,
    * which it does as soon as an item is not a dict holding `activo`. */
  function RewriteActivo(v: Json): (r: Option<Json>)
    ensures r.Some? <==> Items(v).Some? && forall i :: 0 <= i < |Items(v).value| ==>
      Items(v).value[i].Obj? && "activo" in Items(v).value[i].fields
    ensures r.Some? ==> r.value.Arr? && |r.value.items| == |Items(v).value|
    ensures r.Some? ==> forall i :: 0 <= i < |r.value.items| ==>
      var src := Items(v).value[i].fields;
      && r.value.items[i].Obj?
      && r.value.items[i].fields.Keys == {"activo", "participacion"}
      && r.value.items[i].fields["activo"] == src["activo"]
      && r.value.items[i].fields["participacion"]
         == (if "porcentaje_participacion" in src then src["porcentaje_participacion"] else Null)
  {
    match Items(v)
    case None => None
    case Some(xs) =>
      if forall i :: 0 <= i < |xs| ==> xs[i].Obj? && "activo" in xs[i].fields then
        Some(Arr(seq(|xs|, i requires 0 <= i < |xs| && xs[i].Obj? && "activo" in xs[i].fields =>
          ActivoItem(xs[i].fields))))
      else None
  }

  /** The new entries of a composition dict, or `None` when the rewrite raises. */
  function RewriteComposition(fields: map<string, Json>): (r: Option<map<string, Json>>)
    ensures "por_activo" !in fields ==> r == Some(fields)
    ensures r.Some? ==> r.value.Keys == fields.Keys
    ensures r.Some? ==> forall k :: k in fields && k != "por_activo" ==> r.value[k] == fields[k]
  {
    if "por_activo" !in fields then Some(fields)
    else
      match RewriteActivo(fields["por_activo"])
      case None => None
      case Some(items) => Some(fields["por_activo" := items])
  }

  /** Renaming twice is renaming once. */
  lemma {:induction false} RenamePlazoIdempotent<V>(entries: map<string, V>)
    ensures RenamePlazo(RenamePlazo(entries)) == RenamePlazo(entries)
  {
  }

  /** Rewritten items have no `porcentaje_participacion` left, so a second
    * rewrite keeps every `activo` and sets every `participacion` to None. */
  lemma {:induction false} RewriteTwiceLosesShares(v: Json)
    requires RewriteActivo(v).Some?
    ensures var once := RewriteActivo(v).value;
      && RewriteActivo(once).Some?
      && |RewriteActivo(once).value.items| == |once.items|
      && forall i :: 0 <= i < |once.items| ==>
        && RewriteActivo(once).value.items[i].fields["activo"] == once.items[i].fields["activo"]
        && RewriteActivo(once).value.items[i].fields["participacion"] == Null
  {
    var once := RewriteActivo(v).value;
    assert Items(once) == Some(once.items);
    forall i | 0 <= i < |once.items| ensures "porcentaje_participacion" !in once.items[i].fields {
      assert once.items[i].fields.Keys == {"activo", "participacion"};
    }
  }

  /** The objects `normalize_data` may change: the composition dict. */
  function Touched(data: Document): set<Dict>
    reads data
  {
    if Composition in data.entries && data.entries[Composition].Shared? then {data.entries[Composition].dict}
    else {}
  }

  /** `normalize_data(data)`. The caller's top-level dict keeps its entries;
    * a successful call rewrites the caller's composition dict in place and
    * returns a new top-level dict. A call that raises changes nothing. */
  method NormalizeData(data: Document) returns (r: Result<Document, string>)
    requires data.Valid()
    modifies Touched(data)
    ensures data.entries == old(data.entries)
    ensures r.Ok? ==> fresh(r.value) && r.value.entries == RenamePlazo(old(data.entries)) && r.value.Valid()
    ensures r.Ok? && Composition in old(data.entries) ==> r.value.entries[Composition] == data.entries[Composition]
    ensures Composition !in old(data.entries) ==> r.Ok?
    ensures Composition in old(data.entries) && old(data.entries[Composition]).Plain? ==>
      (r.Ok? <==> PyIn(old(data.entries[Composition]).json, "por_activo") == Some(false))
    // `in` on None or a number raises; on a str or list holding `por_activo`
    // it succeeds and the indexing after it, `comp['por_activo']`, raises.
    ensures Composition in old(data.entries) && old(data.entries[Composition]).Shared? ==>
      var d := old(data.entries[Composition]).dict;
      && (r.Ok? <==> RewriteComposition(old(d.fields)).Some?)
      && d.fields == (if r.Ok? then RewriteComposition(old(d.fields)).value else old(d.fields))
  {
    var entries := data.entries;
    if "plazoDuracion" in entries {
      var moved := entries["plazoDuracion"];
      entries := entries - {"plazoDuracion"};
      entries := entries["plazo_duracion" := moved];
    }
    if Composition in entries {
      var comp := entries[Composition];
      match comp
      case Plain(v) =>
        var found := PyIn(v, "por_activo");
        if found.None? || found.value {
          return Err("TypeError");
        }
      case Shared(d) =>
        if "por_activo" in d.fields {
          var items := RewriteActivo(d.fields["por_activo"]);
          if items.None? {
            return Err("the por_activo rewrite raised");
          }
          d.fields := d.fields["por_activo" := items.value];
        }
    }
    var normalized := new Document(entries);
    r := Ok(normalized);
  }
}
