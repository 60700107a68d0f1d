/**
 * The loader of `src/etl/load.py`: `load_to_database` and its `_insert_*`
 * helpers, which flatten one transformed fund document into table rows
 * inside a single transaction, and the per-file wrapper `load_single_json`
 * of the load script.
 *
 * The database is a row list with the next value of the FIC id sequence;
 * a session holds the rows written inside its open transaction. The
 * constraints enforced are the NOT NULL columns of the table classes.
 */
module Loader {
  import opened Wrappers
  import opened Json

  // ---------------------------------------------------------------------
  // Rows

  /** The six horizons of `rentabilidad_historica` and `volatilidad_historica`. */
  datatype Horizons = Horizons(
    ultimoMes: Json, ultimos6Meses: Json, anioCorrido: Json,
    ultimoAnio: Json, ultimos2Anios: Json, ultimos3Anios: Json)

  /** One row of one table. A column the code fills from the document holds
    * the JSON value it was given; `Null` is SQL NULL. */
  datatype Row =
    | FicRow(id: nat, nombreFic: Json, gestor: Json, custodio: Json,
             fechaCorte: Json, politicaDeInversion: Json)
    | ComposicionRow(ficId: nat, tipoComposicion: string, categoria: Json, participacion: Json)
    | PlazoRow(ficId: nat, plazo: Json, participacion: Json)
    | CaracteristicasRow(ficId: nat, tipo: Json, valor: Json,
                         fechaInicioOperaciones: Json, noUnidadesEnCirculacion: Json)
    | CalificacionRow(ficId: nat, calificacion: Json, fechaUltimaCalificacion: Json,
                      entidadCalificadora: Json, entidadCalificadoraNormalizada: Json)
    | InversionRow(ficId: nat, emisor: Json, participacion: Json)
    | RentabilidadRow(ficId: nat, tipoParticipacion: Json, horizons: Horizons)
    | VolatilidadRow(ficId: nat, tipoParticipacion: Json, horizons: Horizons)
    | RawJsonRow(ficId: nat, jsonData: Json, rawTipo: string, filename: string)

  datatype Table =
    | FicTable | ComposicionTable | PlazoTable | CaracteristicasTable
    | CalificacionTable | InversionTable | RentabilidadTable
    | VolatilidadTable | RawJsonTable

  function TableOf(r: Row): Table {
    match r
    case FicRow(_, _, _, _, _, _) => FicTable
    case ComposicionRow(_, _, _, _) => ComposicionTable
    case PlazoRow(_, _, _) => PlazoTable
    case CaracteristicasRow(_, _, _, _, _) => CaracteristicasTable
    case CalificacionRow(_, _, _, _, _) => CalificacionTable
    case InversionRow(_, _, _) => InversionTable
    case RentabilidadRow(_, _, _) => RentabilidadTable
    case VolatilidadRow(_, _, _) => VolatilidadTable
    case RawJsonRow(_, _, _, _) => RawJsonTable
  }

  /** The NOT NULL columns: `nombre_fic` and `gestor` of `fic`, `categoria`
    * of `composicion_portafolio`, `plazo` of `plazo_duracion`, and
    * `tipo_participacion` of the two history tables. */
  predicate NotNull(r: Row) {
    match r
    case FicRow(_, nombre, gestor, _, _, _) => nombre != Null && gestor != Null
    case ComposicionRow(_, _, categoria, _) => categoria != Null
    case PlazoRow(_, plazo, _) => plazo != Null
    case RentabilidadRow(_, tipo, _) => tipo != Null
    case VolatilidadRow(_, tipo, _) => tipo != Null
    case _ => true
  }

  predicate AllNotNull(rows: seq<Row>) {
    forall k :: 0 <= k < |rows| ==> NotNull(rows[k])
  }

  /** A row that belongs to the fund with id `id` and is not a fund row. */
  predicate DependentOf(r: Row, id: nat) {
    !r.FicRow? && r.ficId == id
  }

  /** How many rows of `rows` are in table `t`. */
  function Count(rows: seq<Row>, t: Table): nat {
    if rows == [] then 0
    else Count(rows[..|rows| - 1], t) + (if TableOf(rows[|rows| - 1]) == t then 1 else 0)
  }

  lemma {:induction false} CountAppend(a: seq<Row>, b: seq<Row>, t: Table)
    ensures Count(a + b, t) == Count(a, t) + Count(b, t)
    decreases |b|
  {
    if b == [] {
      assert a + b == a;
    } else {
      var k := |b| - 1;
      assert (a + b)[..|a + b| - 1] == a + b[..k];
      CountAppend(a, b[..k], t);
    }
  }

  lemma {:induction false} CountAbsent(rows: seq<Row>, t: Table)
    requires forall k :: 0 <= k < |rows| ==> TableOf(rows[k]) != t
    ensures Count(rows, t) == 0
  {
    if rows != [] {
      var k := |rows| - 1;
      assert forall i :: 0 <= i < k ==> rows[..k][i] == rows[i];
      CountAbsent(rows[..k], t);
    }
  }

  lemma {:induction false} CountSingle(r: Row, t: Table)
    ensures Count([r], t) == if TableOf(r) == t then 1 else 0
  {
    assert [r][..0] == [];
  }

  // ---------------------------------------------------------------------
  // Reading the document

  /** The dict a value is, if it is one; `.get` on anything else raises
    * `AttributeError`. */
  function DictOf(v: Json): (r: Option<map<string, Json>>)
    ensures r.Some? <==> v.Obj?
  {
    if v.Obj? then Some(v.fields) else None
  }

  // ---------------------------------------------------------------------
  // One row per item: composition, plazo, principales inversiones

  /** The row-building helpers that emit one row per item. */
  datatype Shape = CompositionOf(tipoComposicion: string) | PlazoOf | InversionOf

  /** The keys tried in order for a composition row's `categoria`. */
  const CategoriaKeys: seq<string> := ["activo", "tipo", "sector", "pais", "moneda"]

  /** `item.get('activo') or item.get('tipo') or item.get('sector') or
    * item.get('pais') or item.get('moneda') or item.get('calificacion', '')`. */
  function Categoria(item: map<string, Json>): Json {
    var a := Get(item, "activo", Null);
    if Truthy(a) then a else
    var t := Get(item, "tipo", Null);
    if Truthy(t) then t else
    var s := Get(item, "sector", Null);
    if Truthy(s) then s else
    var p := Get(item, "pais", Null);
    if Truthy(p) then p else
    var m := Get(item, "moneda", Null);
    if Truthy(m) then m else
    Get(item, "calificacion", Str(""))
  }

  /** The row one item gives. */
  function ItemRow(shape: Shape, id: nat, item: map<string, Json>): (r: Row)
    ensures DependentOf(r, id)
  {
    match shape
    case CompositionOf(tipo) =>
      ComposicionRow(id, tipo, Categoria(item), Get(item, "participacion", Null))
    case PlazoOf => PlazoRow(id, Get(item, "plazo", Str("")), Get(item, "participacion", Null))
    case InversionOf => InversionRow(id, Get(item, "emisor", Str("")), Get(item, "participacion", Null))
  }

  function ShapeTable(shape: Shape): Table {
    match shape
    case CompositionOf(_) => ComposicionTable
    case PlazoOf => PlazoTable
    case InversionOf => InversionTable
  }

  /** One row per item, in item order; a non-dict item raises. */
  function ItemRows(shape: Shape, id: nat, items: seq<Json>): (r: Option<seq<Row>>)
    ensures r.Some? <==> forall i :: 0 <= i < |items| ==> items[i].Obj?
    ensures r.Some? ==> |r.value| == |items|
    ensures r.Some? ==> forall i :: 0 <= i < |items| ==> r.value[i] == ItemRow(shape, id, items[i].fields)
  {
    if items == [] then Some([])
    else
      var k := |items| - 1;
      var front := ItemRows(shape, id, items[..k]);
      assert forall i :: 0 <= i < k ==> items[..k][i] == items[i];
      if front.Some? && items[k].Obj? then Some(front.value + [ItemRow(shape, id, items[k].fields)])
      else None
  }

  /** The rows of `for item in data.get(key, [])`. */
  function RowsFor(shape: Shape, id: nat, m: map<string, Json>, key: string): Option<seq<Row>> {
    match Items(Get(m, key, Arr([])))
    case None => None
    case Some(items) => ItemRows(shape, id, items)
  }

  /** The category keys and their `tipo_composicion`, in the dict's order. */
  const Categories: seq<(string, string)> := [
    ("por_activo", "activo"),
    ("por_tipo_de_renta", "tipo_renta"),
    ("por_sector_economico", "sector_economico"),
    ("por_pais_emisor", "pais_emisor"),
    ("por_moneda", "moneda"),
    ("por_calificacion", "calificacion")
  ]

  /** The rows of each element joined in order: `None` once one is `None`. */
  function Chain<T>(part: T -> Option<seq<Row>>, xs: seq<T>): Option<seq<Row>> {
    if xs == [] then Some([])
    else
      var n := |xs| - 1;
      var front := Chain(part, xs[..n]);
      var more := part(xs[n]);
      if front.Some? && more.Some? then Some(front.value + more.value)
      else None
  }

  lemma {:induction false} ChainStep<T>(part: T -> Option<seq<Row>>, xs: seq<T>, j: nat)
    requires j < |xs| && Chain(part, xs[..j]).Some?
    ensures Chain(part, xs[..j + 1])
      == if part(xs[j]).Some? then Some(Chain(part, xs[..j]).value + part(xs[j]).value) else None
  {
    assert xs[..j + 1][..j] == xs[..j];
  }

  lemma {:induction false} ChainNoneStays<T>(part: T -> Option<seq<Row>>, xs: seq<T>, n: nat)
    requires n <= |xs| && Chain(part, xs[..n]).None?
    ensures Chain(part, xs).None?
    decreases |xs| - n
  {
    if n < |xs| {
      assert xs[..n + 1][..n] == xs[..n];
      ChainNoneStays(part, xs, n + 1);
    } else {
      assert xs[..n] == xs;
    }
  }

  /** The rows of one composition category `(key, tipo)`. */
  function CategoryOf(comp: map<string, Json>, id: nat): ((string, string)) -> Option<seq<Row>> {
    (c: (string, string)) => RowsFor(CompositionOf(c.1), id, comp, c.0)
  }

  /** The composition rows of the categories `cats` of `composicion_portafolio`,
    * category after category. */
  function CategoriesRows(comp: map<string, Json>, id: nat, cats: seq<(string, string)>): Option<seq<Row>> {
    Chain(CategoryOf(comp, id), cats)
  }

  /** Each row is a composition row of the fund whose `tipo_composicion`
    * is one of the categories' types. */
  lemma {:induction false} CategoriesShape(comp: map<string, Json>, id: nat, cats: seq<(string, string)>)
    requires CategoriesRows(comp, id, cats).Some?
    ensures var r := CategoriesRows(comp, id, cats).value;
      forall k :: 0 <= k < |r| ==>
        DependentOf(r[k], id) && r[k].ComposicionRow?
        && exists j :: 0 <= j < |cats| && r[k].tipoComposicion == cats[j].1
  {
    if cats != [] {
      var n := |cats| - 1;
      var front := CategoriesRows(comp, id, cats[..n]).value;
      var shape := CompositionOf(cats[n].1);
      var more := RowsFor(shape, id, comp, cats[n].0).value;
      var items := Items(Get(comp, cats[n].0, Arr([]))).value;
      var rows := front + more;
      assert CategoriesRows(comp, id, cats).value == rows;
      CategoriesShape(comp, id, cats[..n]);
      forall k | 0 <= k < |rows|
        ensures DependentOf(rows[k], id) && rows[k].ComposicionRow?
        ensures exists j :: 0 <= j < |cats| && rows[k].tipoComposicion == cats[j].1
      {
        if k < |front| {
          assert rows[k] == front[k];
          var j :| 0 <= j < n && front[k].tipoComposicion == cats[..n][j].1;
          assert cats[..n][j] == cats[j];
        } else {
          assert rows[k] == more[k - |front|] == ItemRow(shape, id, items[k - |front|].fields);
          assert rows[k].tipoComposicion == cats[n].1;
        }
      }
    }
  }

  lemma {:induction false} CategoriesStep(comp: map<string, Json>, id: nat, cats: seq<(string, string)>, j: nat)
    requires j < |cats| && CategoriesRows(comp, id, cats[..j]).Some?
    ensures var more := RowsFor(CompositionOf(cats[j].1), id, comp, cats[j].0);
      CategoriesRows(comp, id, cats[..j + 1])
        == if more.Some? then Some(CategoriesRows(comp, id, cats[..j]).value + more.value) else None
  {
    ChainStep(CategoryOf(comp, id), cats, j);
  }

  /** A category that raises stops the whole composition step. */
  lemma {:induction false} CategoriesNoneStays(comp: map<string, Json>, id: nat, cats: seq<(string, string)>, n: nat)
    requires n <= |cats|
    requires CategoriesRows(comp, id, cats[..n]).None?
    ensures CategoriesRows(comp, id, cats).None?
  {
    ChainNoneStays(CategoryOf(comp, id), cats, n);
  }

  /** `_insert_composicion_portafolio`. */
  function CompositionRows(m: map<string, Json>, id: nat): Option<seq<Row>> {
    match DictOf(Get(m, "composicion_portafolio", Obj(map[])))
    case None => None
    case Some(comp) => CategoriesRows(comp, id, Categories)
  }

  // ---------------------------------------------------------------------
  // One row per call: caracteristicas, calificacion, raw JSON

  /** `_insert_caracteristicas`: one row, from an empty dict when the
    * section is absent. */
  function CaracteristicasRowOf(m: map<string, Json>, id: nat): (r: Option<Row>)
    ensures r.Some? <==> Get(m, "caracteristicas", Obj(map[])).Obj?
    ensures r.Some? ==> r.value.CaracteristicasRow? && DependentOf(r.value, id)
    ensures "caracteristicas" !in m ==> r == Some(CaracteristicasRow(id, Null, Null, Null, Null))
  {
    match DictOf(Get(m, "caracteristicas", Obj(map[])))
    case None => None
    case Some(c) =>
      Some(CaracteristicasRow(id, Get(c, "tipo", Null), Get(c, "valor", Null),
        Get(c, "fecha_inicio_operaciones", Null), Get(c, "no_unidades_en_circulacion", Null)))
  }

  /** `_insert_calificacion`. */
  function CalificacionRowOf(m: map<string, Json>, id: nat): (r: Option<Row>)
    ensures r.Some? <==> Get(m, "calificacion", Obj(map[])).Obj?
    ensures r.Some? ==> r.value.CalificacionRow? && DependentOf(r.value, id)
    ensures "calificacion" !in m ==> r == Some(CalificacionRow(id, Null, Null, Null, Null))
  {
    match DictOf(Get(m, "calificacion", Obj(map[])))
    case None => None
    case Some(c) =>
      Some(CalificacionRow(id, Get(c, "calificacion", Null), Get(c, "fecha_ultima_calificacion", Null),
        Get(c, "entidad_calificadora", Null), Get(c, "entidad_calificadora_normalizada", Null)))
  }

  /** `_insert_raw_json(session, data, fic_id, 'transformed', filename)`. */
  function RawRow(m: map<string, Json>, id: nat, filename: string): Row {
    RawJsonRow(id, Obj(m), "transformed", filename)
  }

  // ---------------------------------------------------------------------
  // rentabilidad_volatilidad

  /** The six horizon columns of one block; every one is NULL for an empty block. */
  function HorizonsOf(h: map<string, Json>): (r: Horizons)
    ensures h == map[] ==> r == Horizons(Null, Null, Null, Null, Null, Null)
  {
    Horizons(Get(h, "ultimo_mes", Null), Get(h, "ultimos_6_meses", Null),
      Get(h, "anio_corrido", Null), Get(h, "ultimo_anio", Null),
      Get(h, "ultimos_2_anios", Null), Get(h, "ultimos_3_anios", Null))
  }

  /** The two rows one `rentabilidad_volatilidad` entry gives. */
  function RentVolPair(id: nat, rv: map<string, Json>): (r: Option<(Row, Row)>)
    ensures r.Some? ==>
      r.value.0.RentabilidadRow? && r.value.1.VolatilidadRow?
      && DependentOf(r.value.0, id) && DependentOf(r.value.1, id)
      && r.value.0.tipoParticipacion == r.value.1.tipoParticipacion == Get(rv, "tipo_de_participacion", Str(""))
    ensures r.Some? && "rentabilidad_historica_ea" !in rv ==> r.value.0.horizons == Horizons(Null, Null, Null, Null, Null, Null)
    ensures r.Some? && "volatilidad_historica" !in rv ==> r.value.1.horizons == Horizons(Null, Null, Null, Null, Null, Null)
  {
    var tipo := Get(rv, "tipo_de_participacion", Str(""));
    var rent := DictOf(Get(rv, "rentabilidad_historica_ea", Obj(map[])));
    var vol := DictOf(Get(rv, "volatilidad_historica", Obj(map[])));
    if rent.Some? && vol.Some? then
      Some((RentabilidadRow(id, tipo, HorizonsOf(rent.value)), VolatilidadRow(id, tipo, HorizonsOf(vol.value))))
    else None
  }

  /** Two rows per entry, rentabilidad before volatilidad, in entry order. */
  function RentVolRows(id: nat, items: seq<Json>): (r: Option<seq<Row>>)
    ensures r.Some? <==> forall i :: 0 <= i < |items| ==> items[i].Obj? && RentVolPair(id, items[i].fields).Some?
    ensures r.Some? ==> |r.value| == 2 * |items|
    ensures r.Some? ==> forall i :: 0 <= i < |items| ==>
      r.value[2 * i] == RentVolPair(id, items[i].fields).value.0
      && r.value[2 * i + 1] == RentVolPair(id, items[i].fields).value.1
  {
    if items == [] then Some([])
    else
      var k := |items| - 1;
      var front := RentVolRows(id, items[..k]);
      assert forall i :: 0 <= i < k ==> items[..k][i] == items[i];
      if front.Some? && items[k].Obj? && RentVolPair(id, items[k].fields).Some? then
        var (rent, vol) := RentVolPair(id, items[k].fields).value;
        Some(front.value + [rent, vol])
      else None
  }

  lemma {:induction false} RentVolStep(id: nat, items: seq<Json>, i: nat)
    requires i < |items| && RentVolRows(id, items[..i]).Some?
    requires items[i].Obj? && RentVolPair(id, items[i].fields).Some?
    ensures RentVolRows(id, items[..i + 1]) == Some(RentVolRows(id, items[..i]).value
      + [RentVolPair(id, items[i].fields).value.0, RentVolPair(id, items[i].fields).value.1])
  {
    assert items[..i + 1][..i] == items[..i];
  }

  /** `_insert_rentabilidad_volatilidad`. */
  function RentVolRowsFor(m: map<string, Json>, id: nat): Option<seq<Row>> {
    match Items(Get(m, "rentabilidad_volatilidad", Arr([])))
    case None => None
    case Some(items) => RentVolRows(id, items)
  }

  // ---------------------------------------------------------------------
  // The whole load

  /** `_insert_fic_data`: always a new row, built from `data.get('fic', {})`. */
  function FicRowOf(data: Json, id: nat): Option<Row> {
    match DictOf(data)
    case None => None
    case Some(m) =>
      match DictOf(Get(m, "fic", Obj(map[])))
      case None => None
      case Some(f) =>
        Some(FicRow(id, Get(f, "nombre_fic", Str("")), Get(f, "gestor", Str("")),
          Get(f, "custodio", Null), Get(f, "fecha_corte", Null), Get(f, "politica_de_inversion", Null)))
  }

  /** The rows after the fund row, in the order of the eight steps. */
  function DependentRows(m: map<string, Json>, id: nat, filename: string): Option<seq<Row>> {
    var comp := CompositionRows(m, id);
    var plazos := RowsFor(PlazoOf, id, m, "plazo_duracion");
    var car := CaracteristicasRowOf(m, id);
    var cal := CalificacionRowOf(m, id);
    var inv := RowsFor(InversionOf, id, m, "principales_inversiones");
    var rv := RentVolRowsFor(m, id);
    if comp.Some? && plazos.Some? && car.Some? && cal.Some? && inv.Some? && rv.Some? then
      Some(comp.value + plazos.value + [car.value] + [cal.value] + inv.value + rv.value + [RawRow(m, id, filename)])
    else None
  }

  /** Every row one call writes when no step raises, fund row first. */
  function Plan(data: Json, filename: string, id: nat): Option<seq<Row>> {
    match FicRowOf(data, id)
    case None => None
    case Some(fic) =>
      match DependentRows(data.fields, id, filename)
      case None => None
      case Some(rows) => Some([fic] + rows)
  }

  /** The call commits: no step raises and no NOT NULL column is NULL. */
  predicate Commits(data: Json, filename: string, id: nat) {
    Plan(data, filename, id).Some? && AllNotNull(Plan(data, filename, id).value)
  }

  // ---------------------------------------------------------------------
  // Database and session

  /** Fund ids are positive, below the sequence, and never repeated. */
  predicate ValidRows(rows: seq<Row>, nextId: nat) {
    && nextId >= 1
    && (forall k :: 0 <= k < |rows| && rows[k].FicRow? ==> 1 <= rows[k].id < nextId)
    && (forall j, k :: 0 <= j < k < |rows| && rows[j].FicRow? && rows[k].FicRow? ==> rows[j].id != rows[k].id)
  }

  class Database {
    /** The committed rows of every table, in insertion order. */
    var rows: seq<Row>
    /** The next value of the `fic.id` sequence. */
    var nextId: nat

    predicate Valid()
      reads this
    {
      ValidRows(rows, nextId)
    }

    constructor()
      ensures Valid() && rows == [] && nextId == 1
    {
      rows := [];
      nextId := 1;
    }
  }

  class Session {
    const db: Database
    /** The rows written inside the open transaction. */
    var pending: seq<Row>

    constructor(db: Database)
      ensures this.db == db && pending == []
    {
      this.db := db;
      pending := [];
    }

    /** `session.add(row)`. */
    method Add(r: Row)
      modifies this
      ensures pending == old(pending) + [r]
    {
      pending := pending + [r];
    }

    /** `session.add(FIC(...))` then `session.flush()`: the INSERT draws the
      * next id from the sequence, which is not given back if the row is
      * refused. */
    method AddFund(nombre: Json, gestor: Json, custodio: Json, fechaCorte: Json, politica: Json)
      returns (id: nat, ok: bool)
      modifies this, db
      ensures id == old(db.nextId) && db.nextId == id + 1 && db.rows == old(db.rows)
      ensures ok == NotNull(FicRow(id, nombre, gestor, custodio, fechaCorte, politica))
      ensures pending == if ok then old(pending) + [FicRow(id, nombre, gestor, custodio, fechaCorte, politica)]
                         else old(pending)
    {
      id := db.nextId;
      db.nextId := db.nextId + 1;
      var r := FicRow(id, nombre, gestor, custodio, fechaCorte, politica);
      ok := NotNull(r);
      if ok {
        pending := pending + [r];
      }
    }

    /** `session.commit()`: the rows become permanent unless one of them
      * breaks a NOT NULL constraint. */
    method Commit() returns (ok: bool)
      modifies this, db
      ensures ok == AllNotNull(old(pending))
      ensures db.rows == if ok then old(db.rows) + old(pending) else old(db.rows)
      ensures db.nextId == old(db.nextId)
      ensures pending == if ok then [] else old(pending)
    {
      ok := forall k :: 0 <= k < |pending| ==> NotNull(pending[k]);
      if ok {
        db.rows := db.rows + pending;
        pending := [];
      }
    }

    /** `session.rollback()`. */
    method Rollback()
      modifies this
      ensures pending == []
    {
      pending := [];
    }
  }

  // ---------------------------------------------------------------------
  // The _insert_* helpers

  /** `_insert_fic_data`. */
  method InsertFicData(s: Session, data: Json, filename: string) returns (id: Option<nat>)
    modifies s, s.db
    ensures FicRowOf(data, old(s.db.nextId)).None? ==>
      id.None? && s.db.nextId == old(s.db.nextId) && s.pending == old(s.pending)
    ensures FicRowOf(data, old(s.db.nextId)).Some? ==>
      var row := FicRowOf(data, old(s.db.nextId)).value;
      && s.db.nextId == old(s.db.nextId) + 1
      && id == (if NotNull(row) then Some(old(s.db.nextId)) else None)
      && s.pending == (if NotNull(row) then old(s.pending) + [row] else old(s.pending))
    ensures s.db.rows == old(s.db.rows)
  {
    if !data.Obj? {
      return None;
    }
    var fic := Get(data.fields, "fic", Obj(map[]));
    if !fic.Obj? {
      return None;
    }
    var f := fic.fields;
    var newId, ok := s.AddFund(Get(f, "nombre_fic", Str("")), Get(f, "gestor", Str("")),
      Get(f, "custodio", Null), Get(f, "fecha_corte", Null), Get(f, "politica_de_inversion", Null));
    id := if ok then Some(newId) else None;
  }

  /** The loop `for item in items: session.add(<row of item>)`. */
  method InsertItems(s: Session, shape: Shape, id: nat, items: seq<Json>) returns (ok: bool)
    modifies s
    ensures ok == ItemRows(shape, id, items).Some?
    ensures ok ==> s.pending == old(s.pending) + ItemRows(shape, id, items).value
  {
    var i := 0;
    while i < |items|
      invariant i <= |items|
      invariant ItemRows(shape, id, items[..i]).Some?
      invariant s.pending == old(s.pending) + ItemRows(shape, id, items[..i]).value
    {
      assert items[..i + 1][..i] == items[..i];
      if !items[i].Obj? {
        return false;
      }
      s.Add(ItemRow(shape, id, items[i].fields));
      i := i + 1;
    }
    assert items[..i] == items;
    ok := true;
  }

  /** `for item in data.get(key, []): ...`. */
  method InsertFor(s: Session, shape: Shape, id: nat, m: map<string, Json>, key: string) returns (ok: bool)
    modifies s
    ensures ok == RowsFor(shape, id, m, key).Some?
    ensures ok ==> s.pending == old(s.pending) + RowsFor(shape, id, m, key).value
  {
    var items := Items(Get(m, key, Arr([])));
    if items.None? {
      return false;
    }
    ok := InsertItems(s, shape, id, items.value);
  }

  /** The loop of `_insert_composicion_portafolio` over the categories `cats`. */
  method InsertCategories(s: Session, comp: map<string, Json>, id: nat, cats: seq<(string, string)>) returns (ok: bool)
    modifies s
    ensures ok == CategoriesRows(comp, id, cats).Some?
    ensures ok ==> s.pending == old(s.pending) + CategoriesRows(comp, id, cats).value
  {
    var j := 0;
    while j < |cats|
      invariant j <= |cats|
      invariant CategoriesRows(comp, id, cats[..j]).Some?
      invariant s.pending == old(s.pending) + CategoriesRows(comp, id, cats[..j]).value
    {
      var (key, tipo) := cats[j];
      ok := InsertFor(s, CompositionOf(tipo), id, comp, key);
      CategoriesStep(comp, id, cats, j);
      if !ok {
        CategoriesNoneStays(comp, id, cats, j + 1);
        return;
      }
      j := j + 1;
    }
    assert cats[..j] == cats;
    ok := true;
  }

  /** `_insert_composicion_portafolio`. */
  method InsertComposicion(s: Session, m: map<string, Json>, id: nat) returns (ok: bool)
    modifies s
    ensures ok == CompositionRows(m, id).Some?
    ensures ok ==> s.pending == old(s.pending) + CompositionRows(m, id).value
  {
    var composicion := Get(m, "composicion_portafolio", Obj(map[]));
    if !composicion.Obj? {
      return false;
    }
    ok := InsertCategories(s, composicion.fields, id, Categories);
  }

  /** `_insert_caracteristicas`. */
  method InsertCaracteristicas(s: Session, m: map<string, Json>, id: nat) returns (ok: bool)
    modifies s
    ensures ok == CaracteristicasRowOf(m, id).Some?
    ensures s.pending == if ok then old(s.pending) + [CaracteristicasRowOf(m, id).value] else old(s.pending)
  {
    var c := Get(m, "caracteristicas", Obj(map[]));
    if !c.Obj? {
      return false;
    }
    s.Add(CaracteristicasRow(id, Get(c.fields, "tipo", Null), Get(c.fields, "valor", Null),
      Get(c.fields, "fecha_inicio_operaciones", Null), Get(c.fields, "no_unidades_en_circulacion", Null)));
    ok := true;
  }

  /** `_insert_calificacion`. */
  method InsertCalificacion(s: Session, m: map<string, Json>, id: nat) returns (ok: bool)
    modifies s
    ensures ok == CalificacionRowOf(m, id).Some?
    ensures s.pending == if ok then old(s.pending) + [CalificacionRowOf(m, id).value] else old(s.pending)
  {
    var c := Get(m, "calificacion", Obj(map[]));
    if !c.Obj? {
      return false;
    }
    s.Add(CalificacionRow(id, Get(c.fields, "calificacion", Null), Get(c.fields, "fecha_ultima_calificacion", Null),
      Get(c.fields, "entidad_calificadora", Null), Get(c.fields, "entidad_calificadora_normalizada", Null)));
    ok := true;
  }

  /** One pass of the loop of `_insert_rentabilidad_volatilidad`. */
  method InsertRentVolEntry(s: Session, id: nat, item: Json) returns (ok: bool)
    modifies s
    ensures ok == (item.Obj? && RentVolPair(id, item.fields).Some?)
    ensures ok ==> s.pending == old(s.pending) + [RentVolPair(id, item.fields).value.0, RentVolPair(id, item.fields).value.1]
  {
    if !item.Obj? {
      return false;
    }
    var rv := item.fields;
    var tipo := Get(rv, "tipo_de_participacion", Str(""));
    var rent := Get(rv, "rentabilidad_historica_ea", Obj(map[]));
    var vol := Get(rv, "volatilidad_historica", Obj(map[]));
    if !rent.Obj? {
      return false;
    }
    s.Add(RentabilidadRow(id, tipo, HorizonsOf(rent.fields)));
    if !vol.Obj? {
      return false;
    }
    s.Add(VolatilidadRow(id, tipo, HorizonsOf(vol.fields)));
    ok := true;
  }

  /** `_insert_rentabilidad_volatilidad`. */
  method InsertRentVol(s: Session, m: map<string, Json>, id: nat) returns (ok: bool)
    modifies s
    ensures ok == RentVolRowsFor(m, id).Some?
    ensures ok ==> s.pending == old(s.pending) + RentVolRowsFor(m, id).value
  {
    var entries := Items(Get(m, "rentabilidad_volatilidad", Arr([])));
    if entries.None? {
      return false;
    }
    var items := entries.value;
    var i := 0;
    while i < |items|
      invariant i <= |items|
      invariant RentVolRows(id, items[..i]).Some?
      invariant s.pending == old(s.pending) + RentVolRows(id, items[..i]).value
    {
      ok := InsertRentVolEntry(s, id, items[i]);
      if !ok {
        return;
      }
      RentVolStep(id, items, i);
      i := i + 1;
    }
    assert items[..i] == items;
    ok := true;
  }

  /** Steps 2 to 8 of `load_to_database`, each run only when the ones
    * before it succeeded. */
  method InsertDependents(s: Session, m: map<string, Json>, id: nat, filename: string) returns (ok: bool)
    modifies s
    ensures ok == DependentRows(m, id, filename).Some?
    ensures ok ==> s.pending == old(s.pending) + DependentRows(m, id, filename).value
  {
    ghost var p0 := s.pending;
    ok := InsertComposicion(s, m, id);
    if !ok { DependentRowsNone(m, id, filename); return; }
    ghost var acc := CompositionRows(m, id).value;
    ok := InsertFor(s, PlazoOf, id, m, "plazo_duracion");
    if !ok { DependentRowsNone(m, id, filename); return; }
    Assoc(p0, acc, RowsFor(PlazoOf, id, m, "plazo_duracion").value);
    acc := acc + RowsFor(PlazoOf, id, m, "plazo_duracion").value;
    ok := InsertCaracteristicas(s, m, id);
    if !ok { DependentRowsNone(m, id, filename); return; }
    Assoc(p0, acc, [CaracteristicasRowOf(m, id).value]);
    acc := acc + [CaracteristicasRowOf(m, id).value];
    ok := InsertCalificacion(s, m, id);
    if !ok { DependentRowsNone(m, id, filename); return; }
    Assoc(p0, acc, [CalificacionRowOf(m, id).value]);
    acc := acc + [CalificacionRowOf(m, id).value];
    ok := InsertFor(s, InversionOf, id, m, "principales_inversiones");
    if !ok { DependentRowsNone(m, id, filename); return; }
    Assoc(p0, acc, RowsFor(InversionOf, id, m, "principales_inversiones").value);
    acc := acc + RowsFor(InversionOf, id, m, "principales_inversiones").value;
    ok := InsertRentVol(s, m, id);
    if !ok { DependentRowsNone(m, id, filename); return; }
    Assoc(p0, acc, RentVolRowsFor(m, id).value);
    acc := acc + RentVolRowsFor(m, id).value;
    s.Add(RawRow(m, id, filename));
    Assoc(p0, acc, [RawRow(m, id, filename)]);
    acc := acc + [RawRow(m, id, filename)];
    ok := true;
    DependentRowsOk(m, id, filename);
  }

  lemma {:induction false} Assoc(a: seq<Row>, b: seq<Row>, c: seq<Row>)
    ensures a + b + c == a + (b + c)
  {
  }

  lemma {:induction false} DependentRowsNone(m: map<string, Json>, id: nat, filename: string)
    requires || CompositionRows(m, id).None?
             || RowsFor(PlazoOf, id, m, "plazo_duracion").None?
             || CaracteristicasRowOf(m, id).None?
             || CalificacionRowOf(m, id).None?
             || RowsFor(InversionOf, id, m, "principales_inversiones").None?
             || RentVolRowsFor(m, id).None?
    ensures DependentRows(m, id, filename).None?
  {
  }

  /** When every step succeeds, the rows are the steps' rows in order. */
  lemma {:induction false} DependentRowsOk(m: map<string, Json>, id: nat, filename: string)
    requires CompositionRows(m, id).Some?
    requires RowsFor(PlazoOf, id, m, "plazo_duracion").Some?
    requires CaracteristicasRowOf(m, id).Some?
    requires CalificacionRowOf(m, id).Some?
    requires RowsFor(InversionOf, id, m, "principales_inversiones").Some?
    requires RentVolRowsFor(m, id).Some?
    ensures DependentRows(m, id, filename) == Some(
      CompositionRows(m, id).value + RowsFor(PlazoOf, id, m, "plazo_duracion").value
      + [CaracteristicasRowOf(m, id).value] + [CalificacionRowOf(m, id).value]
      + RowsFor(InversionOf, id, m, "principales_inversiones").value + RentVolRowsFor(m, id).value
      + [RawRow(m, id, filename)])
  {
  }

  /** `load_to_database(transformed_data, filename)`: every row of the plan
    * is committed, or none is and the call fails. */
  method LoadToDatabase(db: Database, data: Json, filename: string) returns (r: Result<nat, string>)
    requires db.Valid()
    modifies db
    ensures db.Valid()
    ensures r.Ok? <==> Commits(data, filename, old(db.nextId))
    ensures r.Ok? ==>
      r.value == old(db.nextId) && db.rows == old(db.rows) + Plan(data, filename, old(db.nextId)).value
    ensures r.Err? ==> db.rows == old(db.rows)
    ensures db.nextId == if FicRowOf(data, old(db.nextId)).Some? then old(db.nextId) + 1 else old(db.nextId)
  {
    ghost var rows0, id0 := db.rows, db.nextId;
    r := LoadSteps(db, data, filename);
    RaiseNext(rows0, id0);
    if r.Ok? {
      CommitValid(rows0, data, filename, id0);
    }
  }

  /** The body of `load_to_database`: the fund row, its dependent rows,
    * then one commit, with a rollback on every failure. */
  method LoadSteps(db: Database, data: Json, filename: string) returns (r: Result<nat, string>)
    modifies db
    ensures r.Ok? <==> Commits(data, filename, old(db.nextId))
    ensures r.Ok? ==>
      r.value == old(db.nextId) && db.rows == old(db.rows) + Plan(data, filename, old(db.nextId)).value
    ensures r.Err? ==> db.rows == old(db.rows)
    ensures db.nextId == if FicRowOf(data, old(db.nextId)).Some? then old(db.nextId) + 1 else old(db.nextId)
  {
    var s := new Session(db);
    var fic := InsertFicData(s, data, filename);
    if fic.None? {
      FundRefused(data, filename, old(db.nextId));
      s.Rollback();
      return Err("insert of the fund row failed");
    }
    var id := fic.value;
    assert s.pending == [FicRowOf(data, id).value];
    var ok := InsertDependents(s, data.fields, id, filename);
    if !ok {
      PlanNone(data, filename, id);
      s.Rollback();
      return Err("a section of the document could not be read");
    }
    PlanSome(data, filename, id);
    assert s.pending == Plan(data, filename, id).value;
    ok := s.Commit();
    if !ok {
      s.Rollback();
      return Err("a NOT NULL column is NULL");
    }
    r := Ok(id);
  }

  /** Committing the plan of a fresh id keeps the database valid. */
  lemma {:induction false} CommitValid(rows: seq<Row>, data: Json, filename: string, id: nat)
    requires ValidRows(rows, id) && Plan(data, filename, id).Some?
    ensures ValidRows(rows + Plan(data, filename, id).value, id + 1)
  {
    PlanShape(data, filename, id);
    AppendFund(rows, Plan(data, filename, id).value, id);
  }

  /** Drawing an id from the sequence keeps the database valid. */
  lemma {:induction false} RaiseNext(rows: seq<Row>, id: nat)
    requires ValidRows(rows, id)
    ensures ValidRows(rows, id + 1)
  {
  }

  lemma {:induction false} PlanNone(data: Json, filename: string, id: nat)
    requires data.Obj? && DependentRows(data.fields, id, filename).None?
    ensures !Commits(data, filename, id)
  {
  }

  lemma {:induction false} PlanSome(data: Json, filename: string, id: nat)
    requires FicRowOf(data, id).Some? && data.Obj? && DependentRows(data.fields, id, filename).Some?
    ensures Plan(data, filename, id) == Some([FicRowOf(data, id).value] + DependentRows(data.fields, id, filename).value)
  {
  }

  /** A fund row that cannot be built or is refused means no commit. */
  lemma {:induction false} FundRefused(data: Json, filename: string, id: nat)
    requires FicRowOf(data, id).Some? ==> !NotNull(FicRowOf(data, id).value)
    ensures !Commits(data, filename, id)
  {
    if Plan(data, filename, id).Some? {
      assert Plan(data, filename, id).value[0] == FicRowOf(data, id).value;
    }
  }

  /** Committing one plan on a valid database keeps it valid. */
  lemma {:induction false} AppendFund(rows: seq<Row>, plan: seq<Row>, id: nat)
    requires ValidRows(rows, id)
    requires |plan| >= 1 && plan[0].FicRow? && plan[0].id == id
    requires forall k :: 1 <= k < |plan| ==> DependentOf(plan[k], id)
    ensures ValidRows(rows + plan, id + 1)
  {
    var all := rows + plan;
    forall k | 0 <= k < |all| && all[k].FicRow? ensures 1 <= all[k].id < id + 1 {
      if k >= |rows| {
        assert all[k] == plan[k - |rows|];
      }
    }
    forall j, k | 0 <= j < k < |all| && all[j].FicRow? && all[k].FicRow? ensures all[j].id != all[k].id {
      if k >= |rows| {
        assert all[k] == plan[k - |rows|];
        assert k == |rows|;
        assert all[j] == rows[j];
      }
    }
  }

  // ---------------------------------------------------------------------
  // Properties of the plan

  /** The plan is a single new fund row followed only by rows carrying its id. */
  lemma {:induction false} PlanShape(data: Json, filename: string, id: nat)
    requires Plan(data, filename, id).Some?
    ensures var rows := Plan(data, filename, id).value;
      && |rows| >= 1 && rows[0] == FicRowOf(data, id).value
      && rows[0].FicRow? && rows[0].id == id
      && forall k :: 1 <= k < |rows| ==> DependentOf(rows[k], id)
  {
    var m := data.fields;
    DependentsOf(m, id, filename);
    var deps := DependentRows(m, id, filename).value;
    var rows := Plan(data, filename, id).value;
    assert rows == [FicRowOf(data, id).value] + deps;
    forall k | 1 <= k < |rows| ensures DependentOf(rows[k], id) {
      assert rows[k] == deps[k - 1];
    }
  }

  /** Every row after the fund row points at the fund. */
  lemma {:induction false} DependentsOf(m: map<string, Json>, id: nat, filename: string)
    requires DependentRows(m, id, filename).Some?
    ensures var deps := DependentRows(m, id, filename).value;
      forall k :: 0 <= k < |deps| ==> DependentOf(deps[k], id)
  {
    var comp := CompositionRows(m, id).value;
    var plazos := RowsFor(PlazoOf, id, m, "plazo_duracion").value;
    var inv := RowsFor(InversionOf, id, m, "principales_inversiones").value;
    var rv := RentVolRowsFor(m, id).value;
    ItemRowsDependent(PlazoOf, id, m, "plazo_duracion");
    ItemRowsDependent(InversionOf, id, m, "principales_inversiones");
    RentVolDependent(m, id);
    CompositionDependent(m, id);
    assert DependentOf(CaracteristicasRowOf(m, id).value, id);
    assert DependentOf(CalificacionRowOf(m, id).value, id);
    var deps := DependentRows(m, id, filename).value;
    assert deps == comp + plazos + [CaracteristicasRowOf(m, id).value] + [CalificacionRowOf(m, id).value]
      + inv + rv + [RawRow(m, id, filename)];
    forall k | 0 <= k < |deps| ensures DependentOf(deps[k], id) {
      DependentConcat(comp, plazos, [CaracteristicasRowOf(m, id).value], [CalificacionRowOf(m, id).value],
        inv, rv, [RawRow(m, id, filename)], id, k);
    }
  }

  lemma {:induction false} CompositionDependent(m: map<string, Json>, id: nat)
    requires CompositionRows(m, id).Some?
    ensures forall k :: 0 <= k < |CompositionRows(m, id).value| ==>
      DependentOf(CompositionRows(m, id).value[k], id) && CompositionRows(m, id).value[k].ComposicionRow?
  {
    var c := DictOf(Get(m, "composicion_portafolio", Obj(map[]))).value;
    assert CompositionRows(m, id) == CategoriesRows(c, id, Categories);
    CategoriesShape(c, id, Categories);
  }

  lemma {:induction false} ItemRowsDependent(shape: Shape, id: nat, m: map<string, Json>, key: string)
    requires RowsFor(shape, id, m, key).Some?
    ensures forall k :: 0 <= k < |RowsFor(shape, id, m, key).value| ==>
      DependentOf(RowsFor(shape, id, m, key).value[k], id)
      && TableOf(RowsFor(shape, id, m, key).value[k]) == ShapeTable(shape)
  {
    var items := Items(Get(m, key, Arr([]))).value;
    var rows := RowsFor(shape, id, m, key).value;
    forall k | 0 <= k < |rows|
      ensures DependentOf(rows[k], id) && TableOf(rows[k]) == ShapeTable(shape)
    {
      assert rows[k] == ItemRow(shape, id, items[k].fields);
    }
  }

  lemma {:induction false} RentVolDependent(m: map<string, Json>, id: nat)
    requires RentVolRowsFor(m, id).Some?
    ensures forall k :: 0 <= k < |RentVolRowsFor(m, id).value| ==> DependentOf(RentVolRowsFor(m, id).value[k], id)
  {
    var items := Items(Get(m, "rentabilidad_volatilidad", Arr([]))).value;
    var rows := RentVolRowsFor(m, id).value;
    forall k | 0 <= k < |rows| ensures DependentOf(rows[k], id) {
      var i := k / 2;
      if k == 2 * i {
        assert rows[k] == RentVolPair(id, items[i].fields).value.0;
      } else {
        assert rows[k] == RentVolPair(id, items[i].fields).value.1;
      }
    }
  }

  lemma {:induction false} DependentConcat(a: seq<Row>, b: seq<Row>, c: seq<Row>, d: seq<Row>, e: seq<Row>,
                        f: seq<Row>, g: seq<Row>, id: nat, k: nat)
    requires forall i :: 0 <= i < |a| ==> DependentOf(a[i], id)
    requires forall i :: 0 <= i < |b| ==> DependentOf(b[i], id)
    requires forall i :: 0 <= i < |c| ==> DependentOf(c[i], id)
    requires forall i :: 0 <= i < |d| ==> DependentOf(d[i], id)
    requires forall i :: 0 <= i < |e| ==> DependentOf(e[i], id)
    requires forall i :: 0 <= i < |f| ==> DependentOf(f[i], id)
    requires forall i :: 0 <= i < |g| ==> DependentOf(g[i], id)
    requires k < |a + b + c + d + e + f + g|
    ensures DependentOf((a + b + c + d + e + f + g)[k], id)
  {
  }

  // ---------------------------------------------------------------------
  // Row counts

  /** Each `rentabilidad_volatilidad` entry gives one row of each history table. */
  lemma {:induction false} RentVolCounts(id: nat, items: seq<Json>, t: Table)
    requires RentVolRows(id, items).Some?
    ensures Count(RentVolRows(id, items).value, t)
      == if t == RentabilidadTable || t == VolatilidadTable then |items| else 0
  {
    if items != [] {
      var k := |items| - 1;
      assert items[..k + 1] == items;
      RentVolStep(id, items, k);
      RentVolCounts(id, items[..k], t);
      var front := RentVolRows(id, items[..k]).value;
      var pair := RentVolPair(id, items[k].fields).value;
      CountPair(front, pair.0, pair.1, t);
      assert |items[..k]| + 1 == |items|;
    }
  }

  /** A rentabilidad row and a volatilidad row add one to the count of
    * each of their tables and nothing to the others. */
  lemma {:induction false} CountPair(front: seq<Row>, a: Row, b: Row, t: Table)
    requires a.RentabilidadRow? && b.VolatilidadRow?
    ensures Count(front + [a, b], t)
      == Count(front, t) + (if t == RentabilidadTable || t == VolatilidadTable then 1 else 0)
  {
    assert (front + [a, b])[..|front| + 1] == front + [a];
    assert (front + [a])[..|front|] == front;
  }

  /** Counting over the eight steps' rows. */
  lemma {:induction false} CountSteps(fic: Row, comp: seq<Row>, plazos: seq<Row>, car: Row, cal: Row,
                   inv: seq<Row>, rv: seq<Row>, raw: Row, t: Table)
    ensures Count([fic] + (comp + plazos + [car] + [cal] + inv + rv + [raw]), t)
      == Count([fic], t) + Count(comp, t) + Count(plazos, t) + Count([car], t)
         + Count([cal], t) + Count(inv, t) + Count(rv, t) + Count([raw], t)
  {
    var x1 := comp + plazos;
    var x2 := x1 + [car];
    var x3 := x2 + [cal];
    var x4 := x3 + inv;
    var x5 := x4 + rv;
    var x6 := x5 + [raw];
    CountAppend(comp, plazos, t);
    CountAppend(x1, [car], t);
    CountAppend(x2, [cal], t);
    CountAppend(x3, inv, t);
    CountAppend(x4, rv, t);
    CountAppend(x5, [raw], t);
    CountAppend([fic], x6, t);
  }

  lemma {:induction false} CountFromParts(fic: Row, comp: seq<Row>, plazos: seq<Row>, car: Row, cal: Row,
                        inv: seq<Row>, rv: seq<Row>, raw: Row, t: Table, n: nat)
    requires t != ComposicionTable && t != PlazoTable && t != InversionTable
    requires fic.FicRow? && car.CaracteristicasRow? && cal.CalificacionRow? && raw.RawJsonRow?
    requires Count(comp, t) == 0 && Count(plazos, t) == 0 && Count(inv, t) == 0
    requires Count(rv, t) == if t == RentabilidadTable || t == VolatilidadTable then n else 0
    ensures Count([fic] + (comp + plazos + [car] + [cal] + inv + rv + [raw]), t)
      == if t == RentabilidadTable || t == VolatilidadTable then n else 1
  {
    CountSingle(fic, t);
    CountSingle(car, t);
    CountSingle(cal, t);
    CountSingle(raw, t);
    CountSteps(fic, comp, plazos, car, cal, inv, rv, raw, t);
  }

  /** The plan of a load that raises nowhere, step by step. */
  lemma {:induction false} PlanRows(data: Json, filename: string, id: nat)
    requires Plan(data, filename, id).Some?
    ensures var m := data.fields;
      && CompositionRows(m, id).Some? && RowsFor(PlazoOf, id, m, "plazo_duracion").Some?
      && CaracteristicasRowOf(m, id).Some? && CalificacionRowOf(m, id).Some?
      && RowsFor(InversionOf, id, m, "principales_inversiones").Some? && RentVolRowsFor(m, id).Some?
      && Plan(data, filename, id).value == [FicRowOf(data, id).value] + (
        CompositionRows(m, id).value + RowsFor(PlazoOf, id, m, "plazo_duracion").value
        + [CaracteristicasRowOf(m, id).value] + [CalificacionRowOf(m, id).value]
        + RowsFor(InversionOf, id, m, "principales_inversiones").value + RentVolRowsFor(m, id).value
        + [RawRow(data.fields, id, filename)])
  {
    DependentRowsOk(data.fields, id, filename);
  }

  /** The rows of a table counted over the eight steps of one load. */
  lemma {:induction false} PlanCount(data: Json, filename: string, id: nat, t: Table)
    requires Plan(data, filename, id).Some?
    requires t != ComposicionTable && t != PlazoTable && t != InversionTable
    ensures Count(Plan(data, filename, id).value, t)
      == if t == RentabilidadTable || t == VolatilidadTable
         then |Items(Get(data.fields, "rentabilidad_volatilidad", Arr([]))).value|
         else 1
  {
    PlanRows(data, filename, id);
    var m := data.fields;
    var comp := CompositionRows(m, id).value;
    var plazos := RowsFor(PlazoOf, id, m, "plazo_duracion").value;
    var inv := RowsFor(InversionOf, id, m, "principales_inversiones").value;
    CompositionDependent(m, id);
    ItemRowsDependent(PlazoOf, id, m, "plazo_duracion");
    ItemRowsDependent(InversionOf, id, m, "principales_inversiones");
    CountAbsent(comp, t);
    CountAbsent(plazos, t);
    CountAbsent(inv, t);
    var items := Items(Get(m, "rentabilidad_volatilidad", Arr([]))).value;
    RentVolCounts(id, items, t);
    CountFromParts(FicRowOf(data, id).value, comp, plazos, CaracteristicasRowOf(m, id).value,
      CalificacionRowOf(m, id).value, inv, RentVolRowsFor(m, id).value, RawRow(m, id, filename), t, |items|);
  }

  /** One load writes one fund row, one caracteristicas row, one
    * calificacion row and one raw JSON row, and as many rentabilidad rows
    * as volatilidad rows: one of each per `rentabilidad_volatilidad` entry. */
  lemma {:induction false} PlanCounts(data: Json, filename: string, id: nat)
    requires Plan(data, filename, id).Some?
    ensures var rows := Plan(data, filename, id).value;
      var n := |Items(Get(data.fields, "rentabilidad_volatilidad", Arr([]))).value|;
      && Count(rows, FicTable) == 1
      && Count(rows, CaracteristicasTable) == 1
      && Count(rows, CalificacionTable) == 1
      && Count(rows, RawJsonTable) == 1
      && Count(rows, RentabilidadTable) == n
      && Count(rows, VolatilidadTable) == n
  {
    PlanCount(data, filename, id, FicTable);
    PlanCount(data, filename, id, CaracteristicasTable);
    PlanCount(data, filename, id, CalificacionTable);
    PlanCount(data, filename, id, RawJsonTable);
    PlanCount(data, filename, id, RentabilidadTable);
    PlanCount(data, filename, id, VolatilidadTable);
  }

  /** `categoria` is the first truthy value among the keys of
    * `CategoriaKeys`, and `item.get('calificacion', '')` when none is. */
  lemma {:induction false} CategoriaFirstTruthy(item: map<string, Json>)
    ensures || (exists j :: 0 <= j < |CategoriaKeys|
                 && Truthy(Get(item, CategoriaKeys[j], Null))
                 && (forall i :: 0 <= i < j ==> !Truthy(Get(item, CategoriaKeys[i], Null)))
                 && Categoria(item) == Get(item, CategoriaKeys[j], Null))
            || ((forall i :: 0 <= i < |CategoriaKeys| ==> !Truthy(Get(item, CategoriaKeys[i], Null)))
                && Categoria(item) == Get(item, "calificacion", Str("")))
  {
    var ks := CategoriaKeys;
    if Truthy(Get(item, ks[0], Null)) {
      assert Categoria(item) == Get(item, ks[0], Null);
    } else if Truthy(Get(item, ks[1], Null)) {
      assert Categoria(item) == Get(item, ks[1], Null);
    } else if Truthy(Get(item, ks[2], Null)) {
      assert forall i :: 0 <= i < 2 ==> !Truthy(Get(item, ks[i], Null));
      assert Categoria(item) == Get(item, ks[2], Null);
    } else if Truthy(Get(item, ks[3], Null)) {
      assert forall i :: 0 <= i < 3 ==> !Truthy(Get(item, ks[i], Null));
      assert Categoria(item) == Get(item, ks[3], Null);
    } else if Truthy(Get(item, ks[4], Null)) {
      assert forall i :: 0 <= i < 4 ==> !Truthy(Get(item, ks[i], Null));
      assert Categoria(item) == Get(item, ks[4], Null);
    } else {
      assert forall i :: 0 <= i < 5 ==> !Truthy(Get(item, ks[i], Null));
    }
  }

  // ---------------------------------------------------------------------
  // load_single_json

  datatype Status = Skipped | Success | Failed

  /** The dict `load_single_json` returns. */
  datatype LoadReport = LoadReport(filename: string, status: Status, ficId: Option<nat>, error: Option<string>)

  /** `load_single_json(json_path, skip_files)`: `content` is what
    * `json.load` gives for the file, `None` when reading or decoding it
    * raises. */
  method LoadSingleJson(db: Database, filename: string, skipFiles: set<string>, content: Option<Json>)
    returns (report: LoadReport)
    requires db.Valid()
    modifies db
    ensures db.Valid()
    ensures report.filename == filename
    ensures filename in skipFiles ==>
      report == LoadReport(filename, Skipped, None, Some("File in skip list"))
      && db.rows == old(db.rows) && db.nextId == old(db.nextId)
    ensures filename !in skipFiles ==> report.status != Skipped
    ensures report.status == Success <==>
      filename !in skipFiles && content.Some? && Commits(content.value, filename, old(db.nextId))
    ensures report.status == Success ==>
      report.ficId == Some(old(db.nextId)) && report.error.None?
      && db.rows == old(db.rows) + Plan(content.value, filename, old(db.nextId)).value
    ensures report.status == Failed ==> report.ficId.None? && report.error.Some? && db.rows == old(db.rows)
  {
    if filename in skipFiles {
      return LoadReport(filename, Skipped, None, Some("File in skip list"));
    }
    if content.None? {
      return LoadReport(filename, Failed, None, Some("the file could not be read as JSON"));
    }
    var r := LoadToDatabase(db, content.value, filename);
    if r.Ok? {
      report := LoadReport(filename, Success, Some(r.value), None);
    } else {
      report := LoadReport(filename, Failed, None, Some(r.error));
    }
  }
}
