/**
 * The persisted application state of src/state/appStore.ts: the number-map
 * guard, the state restored from storage, and the actions as transitions.
 *
 * The storage itself is not modelled: `LoadState` is given the stored text
 * (or `None` when there is none or the storage is unavailable) and a
 * `parse` function standing for `JSON.parse`, which yields `None` where it
 * throws.  `Number(v)` of a string or an array is the parameter `coerce`.
 */
module AppStore {
  import opened Wrappers
  import opened Js
  import Items
  import ToOrders
  import OrdersFacts

  /** `Record<string, number>`. */
  type NumberMap = map<string, Num>

  datatype AppState = AppState(
    csvDone: bool,
    stockDone: bool,
    exportDoneAt: Option<string>,
    csvFileName: Option<string>,
    orders: NumberMap,
    stock: NumberMap)

  /** `initialState`. */
  const Initial: AppState := AppState(false, false, None, None, map[], map[])

  /** Every number of the map is finite. */
  predicate FiniteMap(m: NumberMap) {
    forall k :: k in m ==> m[k].Finite?
  }

  /** The invariant of the stored state: both maps hold finite numbers only. */
  predicate Valid(s: AppState) {
    FiniteMap(s.orders) && FiniteMap(s.stock)
  }

  // ----- safeNumberMap -----

  /** `isRecord`: a non-null object that is not an array. */
  predicate IsRecord(x: Option<JVal>) {
    x.Some? && x.value.JObj?
  }

  /** `typeof v === "number" ? v : Number(v)`: `Number(null)` is 0, `Number(true)` 1, a plain
      object gives NaN; strings and arrays are left to `coerce`. */
  function ToNumber(v: JVal, coerce: JVal -> Num): Num {
    match v
    case JNum(n) => n
    case JNull => Finite(0)
    case JBool(b) => Finite(if b then 1 else 0)
    case JObj(_) => NaN
    case _ => coerce(v)
  }

  /** `Number.isFinite(n) ? n : 0`. */
  function FiniteOrZero(n: Num): (r: Num)
    ensures r.Finite?
    ensures n.Finite? ==> r == n
  {
    if n.Finite? then n else Finite(0)
  }

  /** What `safeNumberMap` returns. */
  function NumberMapOf(x: Option<JVal>, coerce: JVal -> Num): NumberMap {
    if !IsRecord(x) then map[]
    else map k | k in x.value.fields :: FiniteOrZero(ToNumber(x.value.fields[k], coerce))
  }

  /** `safeNumberMap`: {} for anything but a record; otherwise every entry, its value made a
      finite number. */
  method SafeNumberMap(x: Option<JVal>, coerce: JVal -> Num) returns (out: NumberMap)
    ensures out == NumberMapOf(x, coerce)
  {
    if !(x.Some? && x.value.JObj?) {
      return map[];
    }
    var fields := x.value.fields;
    var keys := fields.Keys;
    out := map[];
    while keys != {}
      invariant keys <= fields.Keys
      invariant out.Keys == fields.Keys - keys
      invariant forall k :: k in out ==> out[k] == FiniteOrZero(ToNumber(fields[k], coerce))
      decreases |keys|
    {
      var k :| k in keys;
      var n := ToNumber(fields[k], coerce);
      out := out[k := if n.Finite? then n else Finite(0)];
      keys := keys - {k};
    }
  }

  /** The guard keeps exactly the keys of a record, keeps finite numbers, turns NaN and the
      infinities into 0, and gives {} for anything that is not a record. */
  lemma NumberMapRule(x: Option<JVal>, coerce: JVal -> Num)
    ensures var out := NumberMapOf(x, coerce);
      && FiniteMap(out)
      && (!IsRecord(x) ==> out == map[])
      && (IsRecord(x) ==> out.Keys == x.value.fields.Keys)
      && (IsRecord(x) ==> forall k :: k in out && x.value.fields[k].JNum? && x.value.fields[k].n.Finite? ==>
            out[k] == x.value.fields[k].n)
      && (IsRecord(x) ==> forall k :: k in out && x.value.fields[k].JNum? && !x.value.fields[k].n.Finite? ==>
            out[k] == Finite(0))
  {
  }

  /** A map of finite numbers passes the guard unchanged. */
  lemma NumberMapKeepsFinite(m: NumberMap, coerce: JVal -> Num)
    requires FiniteMap(m)
    ensures NumberMapOf(Some(JObj(map k | k in m :: JNum(m[k]))), coerce) == m
  {
  }

  // ----- loadState -----

  /** `p.name` of the parsed value: a field of an object, `undefined` for anything else
      (only `null` throws, which `PropAccessThrows` says). */
  function Prop(p: JVal, name: string): Option<JVal> {
    match p
    case JObj(f) => if name in f then Some(f[name]) else None
    case _ => None
  }

  /** Reading a property of `null` throws. */
  predicate PropAccessThrows(p: JVal) {
    p.JNull?
  }

  /** The state restored from a parsed value. */
  function StateOf(p: JVal, coerce: JVal -> Num): AppState {
    AppState(
      Truthy(Prop(p, "csvDone")),
      Truthy(Prop(p, "stockDone")),
      StringOrNull(Prop(p, "exportDoneAt")),
      StringOrNull(Prop(p, "csvFileName")),
      NumberMapOf(Prop(p, "orders"), coerce),
      NumberMapOf(Prop(p, "stock"), coerce))
  }

  /** `loadState`: the initial state when nothing is stored, when the stored text is empty,
      when parsing throws and when reading the parsed value throws; otherwise the state read
      field by field. */
  function LoadState(raw: Option<string>, parse: string -> Option<JVal>, coerce: JVal -> Num): AppState {
    if raw.None? || raw.value == [] then Initial
    else
      match parse(raw.value)
      case None => Initial
      case Some(p) => if PropAccessThrows(p) then Initial else StateOf(p, coerce)
  }

  /** Every failure path gives the initial state. */
  lemma LoadStateFallsBack(raw: Option<string>, parse: string -> Option<JVal>, coerce: JVal -> Num)
    requires raw.None? || raw.value == [] || parse(raw.value).None? || parse(raw.value) == Some(JNull)
    ensures LoadState(raw, parse, coerce) == Initial
  {
  }

  /** After a successful parse the flags are the truth of the stored values, the two texts are
      kept only if they are strings, and the two maps pass through the guard. */
  lemma LoadStateFields(raw: string, parse: string -> Option<JVal>, coerce: JVal -> Num)
    requires raw != [] && parse(raw).Some? && parse(raw).value.JObj?
    ensures var s := LoadState(Some(raw), parse, coerce); var f := parse(raw).value.fields;
      && (s.csvDone <==> "csvDone" in f && Truthy(Some(f["csvDone"])))
      && (s.stockDone <==> "stockDone" in f && Truthy(Some(f["stockDone"])))
      && (s.exportDoneAt.Some? <==> "exportDoneAt" in f && f["exportDoneAt"].JStr?)
      && (s.exportDoneAt.Some? ==> s.exportDoneAt.value == f["exportDoneAt"].s)
      && (s.csvFileName.Some? <==> "csvFileName" in f && f["csvFileName"].JStr?)
      && (s.csvFileName.Some? ==> s.csvFileName.value == f["csvFileName"].s)
      && s.orders == NumberMapOf(if "orders" in f then Some(f["orders"]) else None, coerce)
      && s.stock == NumberMapOf(if "stock" in f then Some(f["stock"]) else None, coerce)
  {
  }

  /** A restored state always satisfies the invariant. */
  lemma LoadStateValid(raw: Option<string>, parse: string -> Option<JVal>, coerce: JVal -> Num)
    ensures Valid(LoadState(raw, parse, coerce))
  {
    if raw.Some? && raw.value != [] && parse(raw.value).Some? {
      var p := parse(raw.value).value;
      NumberMapRule(Prop(p, "orders"), coerce);
      NumberMapRule(Prop(p, "stock"), coerce);
    }
  }

  /** The JSON value `saveState` writes for a state. */
  function ToJson(s: AppState): JVal {
    JObj(map[
      "csvDone" := JBool(s.csvDone),
      "stockDone" := JBool(s.stockDone),
      "exportDoneAt" := if s.exportDoneAt.Some? then JStr(s.exportDoneAt.value) else JNull,
      "csvFileName" := if s.csvFileName.Some? then JStr(s.csvFileName.value) else JNull,
      "orders" := JObj(map k | k in s.orders :: JNum(s.orders[k])),
      "stock" := JObj(map k | k in s.stock :: JNum(s.stock[k]))])
  }

  /** Restoring what was saved gives the saved state back. */
  lemma LoadSaved(s: AppState, raw: string, parse: string -> Option<JVal>, coerce: JVal -> Num)
    requires Valid(s) && raw != [] && parse(raw) == Some(ToJson(s))
    ensures LoadState(Some(raw), parse, coerce) == s
  {
    StateOfJson(s, coerce);
  }

  /** Reading the saved value field by field gives the state back. */
  lemma StateOfJson(s: AppState, coerce: JVal -> Num)
    requires Valid(s)
    ensures StateOf(ToJson(s), coerce) == s
  {
    var p := ToJson(s);
    NumberMapKeepsFinite(s.orders, coerce);
    NumberMapKeepsFinite(s.stock, coerce);
    assert Prop(p, "orders") == Some(JObj(map k | k in s.orders :: JNum(s.orders[k])));
    assert Prop(p, "stock") == Some(JObj(map k | k in s.stock :: JNum(s.stock[k])));
  }

  // ----- actions -----

  /** The actions; `MarkExportDoneNow` carries the clock reading it stores. */
  datatype Action =
    | SetCsvDone(v: bool)
    | SetStockDone(v: bool)
    | SetStock(stock: JVal)
    | SetOrders(fileName: string, orderValues: JVal)
    | MarkExportDoneNow(now: string)
    | ResetAll

  /** The state after an action. */
  function Apply(s: AppState, a: Action, coerce: JVal -> Num): AppState {
    match a
    case SetCsvDone(v) => s.(csvDone := v)
    case SetStockDone(v) => s.(stockDone := v)
    case SetStock(m) => s.(stock := NumberMapOf(Some(m), coerce))
    case SetOrders(name, m) => s.(csvFileName := Some(name), orders := NumberMapOf(Some(m), coerce))
    case MarkExportDoneNow(now) => s.(exportDoneAt := Some(now))
    case ResetAll => Initial
  }

  /** The fields of the state. */
  datatype Field = CsvDoneField | StockDoneField | ExportDoneAtField | CsvFileNameField | OrdersField | StockField

  /** The fields each action is meant to write. */
  predicate Writes(a: Action, f: Field) {
    match a
    case SetCsvDone(_) => f == CsvDoneField
    case SetStockDone(_) => f == StockDoneField
    case SetStock(_) => f == StockField
    case SetOrders(_, _) => f == CsvFileNameField || f == OrdersField
    case MarkExportDoneNow(_) => f == ExportDoneAtField
    case ResetAll => true
  }

  predicate SameField(s: AppState, t: AppState, f: Field) {
    match f
    case CsvDoneField => s.csvDone == t.csvDone
    case StockDoneField => s.stockDone == t.stockDone
    case ExportDoneAtField => s.exportDoneAt == t.exportDoneAt
    case CsvFileNameField => s.csvFileName == t.csvFileName
    case OrdersField => s.orders == t.orders
    case StockField => s.stock == t.stock
  }

  /** Each action leaves every field it is not meant to write unchanged, and the written fields
      hold the action's value. */
  lemma ActionFrames(s: AppState, a: Action, coerce: JVal -> Num)
    ensures forall f :: !Writes(a, f) ==> SameField(s, Apply(s, a, coerce), f)
    ensures a.SetCsvDone? ==> Apply(s, a, coerce).csvDone == a.v
    ensures a.SetStockDone? ==> Apply(s, a, coerce).stockDone == a.v
    ensures a.SetOrders? ==> Apply(s, a, coerce).csvFileName == Some(a.fileName)
    ensures a.SetOrders? ==> Apply(s, a, coerce).orders == NumberMapOf(Some(a.orderValues), coerce)
    ensures a.SetStock? ==> Apply(s, a, coerce).stock == NumberMapOf(Some(a.stock), coerce)
    ensures a.MarkExportDoneNow? ==> Apply(s, a, coerce).exportDoneAt == Some(a.now)
  {
  }

  /** `resetAll` yields exactly the initial state, from any state. */
  lemma ResetAllIsInitial(s: AppState, coerce: JVal -> Num)
    ensures Apply(s, ResetAll, coerce) == Initial
    ensures Initial.orders == map[] && Initial.stock == map[] && !Initial.csvDone && !Initial.stockDone
    ensures Initial.exportDoneAt.None? && Initial.csvFileName.None?
  {
  }

  /** Repeating an action changes nothing more. */
  lemma ActionsIdempotent(s: AppState, a: Action, coerce: JVal -> Num)
    ensures Apply(Apply(s, a, coerce), a, coerce) == Apply(s, a, coerce)
  {
  }

  /** Every action keeps the invariant. */
  lemma ActionsKeepValid(s: AppState, a: Action, coerce: JVal -> Num)
    requires Valid(s)
    ensures Valid(Apply(s, a, coerce))
  {
    match a
    case SetStock(m) => NumberMapRule(Some(m), coerce);
    case SetOrders(_, m) => NumberMapRule(Some(m), coerce);
    case _ =>
  }

  // ----- the engine's result in the state -----

  /** The object `buildOrdersFromCsv` returns, as a value: the totals, and the notes record
      under `__notes`. */
  function OrdersObject(r: ToOrders.OrdersWithMeta): JVal {
    JObj((map k | k in r.totals :: JNum(Finite(r.totals[k]))) + map["__notes" := JObj(map k | k in r.notes :: JStr(r.notes[k]))])
  }

  /** Storing a result whose totals have no `__notes` key keeps every total and turns the
      `__notes` entry into the number 0. */
  lemma StoredOrders(s: AppState, name: string, r: ToOrders.OrdersWithMeta, coerce: JVal -> Num)
    requires "__notes" !in r.totals
    ensures var t := Apply(s, SetOrders(name, OrdersObject(r)), coerce);
      && t.orders.Keys == r.totals.Keys + {"__notes"}
      && t.orders["__notes"] == Finite(0)
      && (forall id :: id in r.totals ==> t.orders[id] == Finite(r.totals[id]))
      && t.csvFileName == Some(name)
  {
  }

  /** No catalog id is `__notes`. */
  lemma NotesKeyOutsideCatalog()
    ensures "__notes" !in Items.IdSet()
  {
    assert forall i :: 0 <= i < |Items.ITEMS| ==> Items.ITEMS[i].id != "__notes";
  }

  /** Storing the engine's result keeps every catalog total and turns the `__notes` entry into
      the number 0: the notes do not survive in the state. */
  lemma NotesDoNotSurvive(s: AppState, name: string, rows: seq<ToOrders.Row>, coerce: JVal -> Num)
    ensures var r := ToOrders.Finish(ToOrders.Run(rows));
      var t := Apply(s, SetOrders(name, OrdersObject(r)), coerce);
      && t.orders.Keys == Items.IdSet() + {"__notes"}
      && t.orders["__notes"] == Finite(0)
      && (forall id :: id in Items.IdSet() ==> t.orders[id] == Finite(OrdersFacts.TotalOf(rows, id)))
  {
    var r := ToOrders.Finish(ToOrders.Run(rows));
    OrdersFacts.ResultTotals(rows);
    NotesKeyOutsideCatalog();
    StoredOrders(s, name, r, coerce);
  }
}
