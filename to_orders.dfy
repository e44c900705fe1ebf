/**
 * The order engine of src/features/csv/toOrders.ts: it folds the CSV rows
 * into per-item order totals for the fixed catalog, a notes map and the
 * ordered list of sponge sub-SKU entries.
 *
 * The per-row decision chain is the function `Classify`, which returns the
 * row's effect; `Run` folds the effects over the rows and `Finish` adds the
 * sponge breakdown note.  `BuildOrdersFromCsv` is the loop itself, proved to
 * compute `Finish(Run(rows))`.
 */
module ToOrders {
  import opened Wrappers
  import opened Text
  import Items
  import ParseCsv

  type Row = ParseCsv.Row

  const NAME_KEY: string := "商品名"
  const QTY_KEY: string := "発注数量"
  const SPEC_KEY: string := "規格・入数／単位"

  /** `row[key]`, which is `undefined` when the header has no such column. */
  function Lookup(row: Row, key: string): Option<string> {
    if key in row then Some(row[key]) else None
  }

  // ----- toNumberSafe -----

  /** The value of the leftmost match of `-?\d+` in `s`, or `None` when nothing matches.
      The digit run is maximal (greedy `\d+`); a `-` counts only when a digit follows it. */
  function FirstSignedRun(s: string): Option<int> {
    if s == [] then None
    else if IsDigit(s[0]) then Some(DecimalValue(LeadingDigits(s)))
    else if s[0] == '-' && |s| >= 2 && IsDigit(s[1]) then
      var v: int := DecimalValue(LeadingDigits(s[1..]));
      Some(-v)
    else FirstSignedRun(s[1..])
  }

  /** No ASCII digit anywhere in `s`. */
  predicate NoDigit(s: string) {
    forall c :: c in s ==> !IsDigit(c)
  }

  /** `toNumberSafe`: the first signed digit run of the trimmed field, 0 for a missing or blank
      field and for one without digits. */
  function ToNumberSafe(x: Option<string>): (n: int)
    ensures NoDigit(x.GetOr("")) ==> n == 0
  {
    var s := Trim(x.GetOr(""));
    if s == [] then 0
    else
      NoDigitTrim(x.GetOr(""));
      match FirstSignedRun(s)
      case None => 0
      case Some(v) => v
  }

  lemma NoDigitTrim(s: string)
    ensures NoDigit(s) ==> NoDigit(Trim(s))
    ensures NoDigit(s) ==> FirstSignedRun(Trim(s)) == None
  {
    TrimSpec(s);
    if NoDigit(s) {
      var t := Trim(s);
      var i :| 0 <= i <= |s| - |t| && OccursAt(s, t, i);
      forall c | c in t ensures !IsDigit(c) {
        var k :| 0 <= k < |t| && t[k] == c;
        assert s[i + k] == c;
      }
      FirstSignedRunNoDigit(t);
    }
  }

  lemma {:induction false} FirstSignedRunNoDigit(s: string)
    requires NoDigit(s)
    ensures FirstSignedRun(s) == None
  {
    if s != [] {
      assert s[0] in s;
      if |s| >= 2 { assert s[1] in s; }
      assert NoDigit(s[1..]) by {
        forall c | c in s[1..] ensures !IsDigit(c) { assert c in s; }
      }
      FirstSignedRunNoDigit(s[1..]);
    }
  }

  // ----- norm -----

  /** The characters `norm` deletes: space, ideographic space and tab. */
  predicate NormDropped(c: char) {
    c == ' ' || c == '\U{3000}' || c == '\t'
  }

  /** `.replace(/[ 　\t]/g, "")`. */
  function DropNormChars(s: string): (r: string)
    ensures |r| <= |s|
    ensures forall c :: c in r ==> c in s && !NormDropped(c)
    ensures |s| == 1 ==> r == if NormDropped(s[0]) then [] else s
  {
    if s == [] then []
    else (if NormDropped(s[0]) then [] else [s[0]]) + DropNormChars(s[1..])
  }

  /** The deletion works character by character: with the one-character case above, every
      other character is kept, in order. */
  lemma {:induction false} DropNormCharsAppend(a: string, b: string)
    ensures DropNormChars(a + b) == DropNormChars(a) + DropNormChars(b)
  {
    if a == [] {
      assert a + b == b;
    } else {
      assert (a + b)[0] == a[0] && (a + b)[1..] == a[1..] + b;
      DropNormCharsAppend(a[1..], b);
    }
  }

  /** A string without the deleted characters is kept whole. */
  lemma {:induction false} DropNormCharsKeeps(s: string)
    requires forall i :: 0 <= i < |s| ==> !NormDropped(s[i])
    ensures DropNormChars(s) == s
  {
    if s != [] {
      DropNormCharsKeeps(s[1..]);
    }
  }

  /** `norm`: delete space, ideographic space and tab everywhere, then trim. */
  function Norm(s: string): (r: string)
    ensures forall c :: c in r ==> c in s && !NormDropped(c)
    ensures r != [] ==> !IsSpace(r[0]) && !IsSpace(r[|r| - 1])
    ensures Trim(r) == r
  {
    TrimSpec(DropNormChars(s));
    TrimChars(DropNormChars(s));
    TrimIdempotent(DropNormChars(s));
    Trim(DropNormChars(s))
  }

  // ----- ruskToPacks -----

  /** `ruskToPacks`: a CSV rusk quantity that is a multiple of 48 pieces (and at least 48) is
      read as pieces and converted to packs; any other positive quantity is already packs. */
  function RuskToPacks(qty: int): (packs: int)
    ensures qty <= 0 ==> packs == 0
    ensures qty > 0 ==> 0 < packs <= qty
    ensures qty >= 48 && qty % 48 == 0 ==> packs * 48 == qty
    ensures qty > 0 && !(qty >= 48 && qty % 48 == 0) ==> packs == qty
  {
    if qty <= 0 then 0
    else if qty < 48 then qty
    else if qty % 48 == 0 then qty / 48
    else qty
  }

  // ----- pickSpongeUnitFromNameOrSpec -----

  /** The capture of the leftmost match of `(\d+)個` in `s`.  A match must start a maximal
      digit run that `個` follows: `\d+` cannot stop early in front of another digit, and a
      start in the middle of a run ends where the whole run ends; so each run is tried once. */
  function NameUnit(s: string): Option<nat>
    decreases |s|
  {
    if s == [] then None
    else if IsDigit(s[0]) then
      var d := LeadingDigits(s);
      if |d| < |s| && s[|d|] == '個' then Some(DecimalValue(d)) else NameUnit(s[|d|..])
    else NameUnit(s[1..])
  }

  /** `[\/／]個` at the start of `r`. */
  predicate SlashPiece(r: string) {
    |r| >= 2 && (r[0] == '/' || r[0] == '／') && r[1] == '個'
  }

  /** What may follow the captured digits of `(\d+)(?:\.\d+)?[\/／]個`: the slash and `個`,
      or a decimal fraction first. */
  predicate UnitTail(r: string) {
    || SlashPiece(r)
    || (|r| >= 2 && r[0] == '.' && IsDigit(r[1]) && SlashPiece(r[1 + |LeadingDigits(r[1..])|..]))
  }

  /** The capture of the leftmost match of `(\d+)(?:\.\d+)?[\/／]個` in `s`, as in "60.00／個"
      or "144/個"; each maximal digit run is tried once, as in `NameUnit`. */
  function SpecUnit(s: string): Option<nat>
    decreases |s|
  {
    if s == [] then None
    else if IsDigit(s[0]) then
      var d := LeadingDigits(s);
      if UnitTail(s[|d|..]) then Some(DecimalValue(d)) else SpecUnit(s[|d|..])
    else SpecUnit(s[1..])
  }

  /** `pickSpongeUnitFromNameOrSpec`: the pack size from the name first, then from the spec
      field, else 0. */
  function PickSpongeUnit(name: string, spec: string): (unit: nat)
    ensures NameUnit(name).Some? ==> unit == NameUnit(name).value
    ensures NameUnit(name).None? && SpecUnit(spec).Some? ==> unit == SpecUnit(spec).value
    ensures NameUnit(name).None? && SpecUnit(spec).None? ==> unit == 0
  {
    match NameUnit(name)
    case Some(u) => u
    case None =>
      match SpecUnit(spec)
      case Some(u) => u
      case None => 0
  }

  // ----- effects of one row -----

  /** The four sponge sub-SKUs, by the `kind` text the engine records. */
  datatype SpongeKind = K60 | K36 | K49 | K144

  function KindLabel(k: SpongeKind): string {
    match k
    case K60 => "60"
    case K36 => "36"
    case K49 => "49直"
    case K144 => "144"
  }

  function KindId(k: SpongeKind): string {
    match k
    case K60 => "sponge_60"
    case K36 => "sponge_36"
    case K49 => "sponge_49"
    case K144 => "sponge_144"
  }

  /** One entry of the sponge breakdown list. */
  datatype Bag = Bag(kind: SpongeKind, qty: int)

  /** `orders[id] += qty`. */
  datatype Add = Add(id: string, qty: int)

  /** `notes[key] = text`. */
  datatype NoteWrite = NoteWrite(key: string, text: string)

  /** What one row does to the engine state: additions in order, at most one note write and
      at most one sponge entry. */
  datatype Effect = Effect(adds: seq<Add>, note: Option<NoteWrite>, bag: Option<Bag>)

  const NoEffect: Effect := Effect([], None, None)

  function AddOnly(id: string, qty: int): Effect {
    Effect([Add(id, qty)], None, None)
  }

  /** The bread names that are never ordered. */
  predicate IsBread(name: string) {
    || Contains(name, "山パン")
    || Contains(name, "ちぎり")
    || (Contains(name, "デニッシュ") && !Contains(name, "デニッシュラスク"))
  }

  predicate IsCoffeeWord(name: string) {
    Contains(name, "珈琲") || Contains(name, "コーヒ")
  }

  predicate IsEggS(name: string, spec: string) {
    Contains(name, "たまご")
    && (Contains(name, "S") || Contains(name, "Ｓ") || Contains(spec, "S") || Contains(spec, "Ｓ"))
  }

  /** The sponge branch, given the unit picked from name and spec. */
  function SpongeEffect(name: string, unit: nat, qty: int, nameRaw: string, specRaw: string): Effect {
    if unit == 60 then Effect([Add("sponge_60", qty)], None, Some(Bag(K60, qty)))
    else if unit == 36 then Effect([Add("sponge_36", qty)], None, Some(Bag(K36, qty)))
    else if unit == 144 then Effect([Add("sponge_144", qty)], None, Some(Bag(K144, qty)))
    else if unit == 49 || Contains(name, "直送") then Effect([Add("sponge_49", qty)], None, Some(Bag(K49, qty)))
    else Effect([], Some(NoteWrite("sponge_unknown", SpongeUnknownText(nameRaw, specRaw, qty))), None)
  }

  function SpongeUnknownText(nameRaw: string, specRaw: string, qty: int): string {
    "未対応スポンジ: " + nameRaw + " / 規格:" + specRaw + " / 数量:" + IntToString(qty)
  }

  function FruitEffect(name: string, qty: int, nameRaw: string): Effect {
    if Contains(name, "桃") || Contains(name, "もも") then AddOnly("fruit_peach", qty)
    else if Contains(name, "イチゴ") || Contains(name, "いちご") || Contains(name, "苺") then AddOnly("fruit_angel", qty)
    else Effect([], Some(NoteWrite("fruit_unknown", FruitUnknownText(nameRaw, qty))), None)
  }

  function FruitUnknownText(nameRaw: string, qty: int): string {
    "未対応フルーツ: " + nameRaw + " / 数量:" + IntToString(qty)
  }

  /** `acc` followed by `a` when `c` holds. */
  function AddIf(c: bool, acc: seq<Add>, a: Add): seq<Add> {
    if c then acc + [a] else acc
  }

  /** The four tests of the "other" section, in order, none of which stops the chain. */
  function OtherAdds(name: string, qty: int): seq<Add> {
    var crumble := AddIf(Contains(name, "クランブル200g"), [], Add("crumble", qty));
    var choco := AddIf(Contains(name, "チョコレート500g"), crumble, Add("choco", qty));
    var white := AddIf(Contains(name, "白玉ねぎ"), choco, Add("white_onion", qty));
    AddIf(Contains(name, "赤玉ねぎ"), white, Add("red_onion", qty))
  }

  /** The chiffon tests, in order. */
  function ChiffonAdds(name: string, qty: int): seq<Add> {
    if Contains(name, "紅茶") && Contains(name, "シフォン") then [Add("tea", qty)]
    else if Contains(name, "期間限定") && Contains(name, "シフォン") then [Add("season", qty)]
    else if Contains(name, "シフォン") then [Add("plain", qty)]
    else []
  }

  /** The body of the row loop of `buildOrdersFromCsv` as a value: the strictly ordered chain
      of tests on the normalised name, the quantity and the normalised spec. */
  function ClassifyFields(name: string, qty: int, spec: string, nameRaw: string, specRaw: string): Effect {
    if name == [] || qty <= 0 then NoEffect
    else if IsBread(name) then NoEffect
    else if Contains(name, "ミルフィーユデニッシュラスク") then
      if Contains(spec, "5枚") then AddOnly("danish_rusk_5", qty)
      else if Contains(spec, "10枚") then AddOnly("danish_rusk_10", qty)
      else NoEffect
    else RuskOnward(name, qty, spec, nameRaw, specRaw)
  }

  /** The chain from the rusk tests on. */
  function RuskOnward(name: string, qty: int, spec: string, nameRaw: string, specRaw: string): Effect {
    if Contains(name, "伊勢") && IsCoffeeWord(name) && Contains(name, "ラスク") then
      AddOnly("rusk_coffee", RuskToPacks(qty))
    else if Contains(name, "なぎさ") && Contains(name, "ラスク") then
      AddOnly("rusk_plain", RuskToPacks(qty))
    else if Contains(name, "ラスク") then
      AddOnly(if IsCoffeeWord(name) then "rusk_coffee" else "rusk_plain", RuskToPacks(qty))
    else NutsOnward(name, qty, spec, nameRaw, specRaw)
  }

  /** The chain from the nuts test on. */
  function NutsOnward(name: string, qty: int, spec: string, nameRaw: string, specRaw: string): Effect {
    if Contains(name, "クランブルナッツ200g") then AddOnly("nuts", qty)
    else if Contains(name, "エンジェルスポンジ") then SpongeEffect(name, PickSpongeUnit(name, spec), qty, nameRaw, specRaw)
    else if IsEggS(name, spec) then AddOnly("egg_s", qty)
    else if Contains(name, "フルーツ") then FruitEffect(name, qty, nameRaw)
    else Effect(OtherAdds(name, qty) + ChiffonAdds(name, qty), None, None)
  }

  /** The raw product name of a row. */
  function NameRaw(row: Row): string {
    Lookup(row, NAME_KEY).GetOr("")
  }

  /** The raw spec field of a row. */
  function SpecRaw(row: Row): string {
    Lookup(row, SPEC_KEY).GetOr("")
  }

  /** The effect of one row. */
  function Classify(row: Row): Effect {
    ClassifyFields(Norm(NameRaw(row)), ToNumberSafe(Lookup(row, QTY_KEY)), Norm(SpecRaw(row)), NameRaw(row), SpecRaw(row))
  }

  // ----- the fold -----

  /** The running state of the loop: the totals record, the notes record, the sponge list. */
  datatype Engine = Engine(orders: map<string, int>, notes: map<string, string>, bags: seq<Bag>)

  /** `orders[a.id] += a.qty`. */
  function Bump(m: map<string, int>, a: Add): (r: map<string, int>)
    requires a.id in m
    ensures r.Keys == m.Keys
  {
    m[a.id := m[a.id] + a.qty]
  }

  /** The additions applied left to right. */
  function ApplyAdds(m: map<string, int>, adds: seq<Add>): (r: map<string, int>)
    requires forall k :: 0 <= k < |adds| ==> adds[k].id in m
    ensures r.Keys == m.Keys
  {
    if adds == [] then m else Bump(ApplyAdds(m, adds[..|adds| - 1]), adds[|adds| - 1])
  }

  function ApplyNote(notes: map<string, string>, w: Option<NoteWrite>): map<string, string> {
    match w
    case None => notes
    case Some(NoteWrite(k, t)) => notes[k := t]
  }

  function BagsOf(b: Option<Bag>): seq<Bag> {
    match b
    case None => []
    case Some(x) => [x]
  }

  /** Every addition of an effect goes to a catalog id. */
  predicate AddsInCatalog(e: Effect) {
    forall k :: 0 <= k < |e.adds| ==> e.adds[k].id in Items.CatalogIds()
  }

  /** One row's effect on the state. */
  function Step(s: Engine, e: Effect): Engine
    requires s.orders.Keys == Items.CatalogIds() && AddsInCatalog(e)
  {
    Engine(ApplyAdds(s.orders, e.adds), ApplyNote(s.notes, e.note), s.bags + BagsOf(e.bag))
  }

  /** Every addition of an effect has a positive quantity. */
  predicate AddsPositive(e: Effect) {
    forall k :: 0 <= k < |e.adds| ==> e.adds[k].qty > 0
  }

  /** `AddIf` adds nothing but `a`. */
  lemma AddIfAdds(c: bool, acc: seq<Add>, a: Add, ids: set<string>)
    requires forall k :: 0 <= k < |acc| ==> acc[k].id in ids && acc[k].qty > 0
    requires a.id in ids && a.qty > 0
    ensures forall k :: 0 <= k < |AddIf(c, acc, a)| ==> AddIf(c, acc, a)[k].id in ids && AddIf(c, acc, a)[k].qty > 0
  {
  }

  /** The last branch of the chain adds only to catalog ids, with the row's quantity. */
  lemma OtherAddsOk(name: string, qty: int)
    requires qty > 0
    ensures AddsInCatalog(Effect(OtherAdds(name, qty) + ChiffonAdds(name, qty), None, None))
    ensures AddsPositive(Effect(OtherAdds(name, qty) + ChiffonAdds(name, qty), None, None))
  {
    var ids := Items.CatalogIds();
    var crumble := AddIf(Contains(name, "クランブル200g"), [], Add("crumble", qty));
    AddIfAdds(Contains(name, "クランブル200g"), [], Add("crumble", qty), ids);
    var choco := AddIf(Contains(name, "チョコレート500g"), crumble, Add("choco", qty));
    AddIfAdds(Contains(name, "チョコレート500g"), crumble, Add("choco", qty), ids);
    var white := AddIf(Contains(name, "白玉ねぎ"), choco, Add("white_onion", qty));
    AddIfAdds(Contains(name, "白玉ねぎ"), choco, Add("white_onion", qty), ids);
    AddIfAdds(Contains(name, "赤玉ねぎ"), white, Add("red_onion", qty), ids);
    var other := OtherAdds(name, qty);
    var chiffon := ChiffonAdds(name, qty);
    assert forall k :: 0 <= k < |chiffon| ==> chiffon[k].id in ids && chiffon[k].qty > 0;
    var adds := other + chiffon;
    forall k | 0 <= k < |adds| ensures adds[k].id in ids && adds[k].qty > 0 {
      if k >= |other| { assert adds[k] == chiffon[k - |other|]; }
    }
  }

  /** Every addition from the nuts test on goes to a catalog id, with a positive quantity. */
  lemma NutsOnwardAdds(name: string, qty: int, spec: string, nameRaw: string, specRaw: string)
    requires qty > 0
    ensures AddsInCatalog(NutsOnward(name, qty, spec, nameRaw, specRaw))
    ensures AddsPositive(NutsOnward(name, qty, spec, nameRaw, specRaw))
  {
    if !Contains(name, "クランブルナッツ200g") && !Contains(name, "エンジェルスポンジ")
      && !IsEggS(name, spec) && !Contains(name, "フルーツ")
    {
      OtherAddsOk(name, qty);
    }
  }

  /** Every addition from the rusk tests on goes to a catalog id, with a positive quantity. */
  lemma RuskOnwardAdds(name: string, qty: int, spec: string, nameRaw: string, specRaw: string)
    requires qty > 0
    ensures AddsInCatalog(RuskOnward(name, qty, spec, nameRaw, specRaw))
    ensures AddsPositive(RuskOnward(name, qty, spec, nameRaw, specRaw))
  {
    if !Contains(name, "ラスク") {
      NutsOnwardAdds(name, qty, spec, nameRaw, specRaw);
    }
  }

  /** Every addition the classifier makes goes to a catalog id, with a positive quantity. */
  lemma ClassifyFieldsAdds(name: string, qty: int, spec: string, nameRaw: string, specRaw: string)
    ensures AddsInCatalog(ClassifyFields(name, qty, spec, nameRaw, specRaw))
    ensures AddsPositive(ClassifyFields(name, qty, spec, nameRaw, specRaw))
  {
    if name != [] && qty > 0 && !IsBread(name) && !Contains(name, "ミルフィーユデニッシュラスク") {
      RuskOnwardAdds(name, qty, spec, nameRaw, specRaw);
    }
  }

  /** The initial state: the zero map and nothing else. */
  function Start(): (s: Engine)
    ensures s.orders.Keys == Items.CatalogIds()
  {
    Items.IdSetIs();
    Engine(Items.ZeroMap(), map[], [])
  }

  /** The state after the loop has processed `rows`, in order. */
  function Run(rows: seq<Row>): (s: Engine)
    ensures s.orders.Keys == Items.CatalogIds()
  {
    if rows == [] then Start()
    else
      var last := rows[|rows| - 1];
      ClassifyFieldsAdds(Norm(NameRaw(last)), ToNumberSafe(Lookup(last, QTY_KEY)), Norm(SpecRaw(last)), NameRaw(last), SpecRaw(last));
      Step(Run(rows[..|rows| - 1]), Classify(last))
  }

  /** `${p.kind}×${p.qty}`. */
  function BagText(b: Bag): string {
    KindLabel(b.kind) + "×" + IntToString(b.qty)
  }

  /** The text of every entry, in order. */
  function BagTexts(bags: seq<Bag>): (r: seq<string>)
    ensures |r| == |bags|
    ensures forall k :: 0 <= k < |bags| ==> r[k] == BagText(bags[k])
  {
    seq(|bags|, k requires 0 <= k < |bags| => BagText(bags[k]))
  }

  function SpongeNote(bags: seq<Bag>): string {
    "内訳(数量): " + Join(BagTexts(bags), " / ")
  }

  /** The object `buildOrdersFromCsv` returns: the totals, and the notes under `__notes`. */
  datatype OrdersWithMeta = OrdersWithMeta(totals: map<string, int>, notes: map<string, string>)

  /** After the loop: the breakdown note, if there is any sponge entry. */
  function Finish(s: Engine): OrdersWithMeta {
    OrdersWithMeta(s.orders, if s.bags != [] then s.notes["sponge" := SpongeNote(s.bags)] else s.notes)
  }

  /** The last row's step of the fold. */
  lemma RunLast(rows: seq<Row>)
    requires rows != []
    ensures AddsInCatalog(Classify(rows[|rows| - 1]))
    ensures Run(rows) == Step(Run(rows[..|rows| - 1]), Classify(rows[|rows| - 1]))
  {
    var last := rows[|rows| - 1];
    ClassifyFieldsAdds(Norm(NameRaw(last)), ToNumberSafe(Lookup(last, QTY_KEY)), Norm(SpecRaw(last)), NameRaw(last), SpecRaw(last));
  }

  /** The step from the first `r` rows to the first `r + 1`. */
  lemma RunPrefix(rows: seq<Row>, r: nat)
    requires r < |rows|
    ensures AddsInCatalog(Classify(rows[r]))
    ensures Run(rows[..r + 1]) == Step(Run(rows[..r]), Classify(rows[r]))
  {
    var pre := rows[..r + 1];
    assert pre[..r] == rows[..r] && pre[r] == rows[r];
    RunLast(pre);
  }

  // ----- buildOrdersFromCsv -----

  lemma ApplyAddsSnoc(m: map<string, int>, adds: seq<Add>, a: Add)
    requires forall k :: 0 <= k < |adds| ==> adds[k].id in m
    requires a.id in m
    ensures ApplyAdds(m, adds + [a]) == Bump(ApplyAdds(m, adds), a)
  {
    assert (adds + [a])[..|adds|] == adds;
  }

  lemma ApplyOne(m: map<string, int>, id: string, qty: int)
    requires id in m
    ensures ApplyAdds(m, [Add(id, qty)]) == m[id := m[id] + qty]
  {
    assert [Add(id, qty)][..0] == [];
  }

  /** `orders[id] += qty`. */
  method Credit(orders: map<string, int>, id: string, qty: int) returns (orders': map<string, int>)
    requires id in orders
    ensures IdsIn([Add(id, qty)], orders)
    ensures orders' == ApplyAdds(orders, [Add(id, qty)])
  {
    ApplyOne(orders, id, qty);
    orders' := orders[id := orders[id] + qty];
  }

  /** The sponge part of the loop body (toOrders.ts:111-137), from the unit on. */
  method SpongeRow(orders: map<string, int>, notes: map<string, string>, spongeBags: seq<Bag>,
                   name: string, unit: nat, qty: int, nameRaw: string, specRaw: string)
    returns (orders': map<string, int>, notes': map<string, string>, spongeBags': seq<Bag>)
    requires orders.Keys == Items.CatalogIds()
    ensures var e := SpongeEffect(name, unit, qty, nameRaw, specRaw);
      && IdsIn(e.adds, orders)
      && orders' == ApplyAdds(orders, e.adds) && notes' == ApplyNote(notes, e.note) && spongeBags' == spongeBags + BagsOf(e.bag)
  {
    ghost var e := SpongeEffect(name, unit, qty, nameRaw, specRaw);
    orders', notes', spongeBags' := orders, notes, spongeBags;
    if unit == 60 {
      assert e == Effect([Add("sponge_60", qty)], None, Some(Bag(K60, qty)));
      orders' := Credit(orders, "sponge_60", qty);
      spongeBags' := spongeBags + [Bag(K60, qty)];
    } else if unit == 36 {
      assert e == Effect([Add("sponge_36", qty)], None, Some(Bag(K36, qty)));
      orders' := Credit(orders, "sponge_36", qty);
      spongeBags' := spongeBags + [Bag(K36, qty)];
    } else if unit == 144 {
      assert e == Effect([Add("sponge_144", qty)], None, Some(Bag(K144, qty)));
      orders' := Credit(orders, "sponge_144", qty);
      spongeBags' := spongeBags + [Bag(K144, qty)];
    } else if unit == 49 || Contains(name, "直送") {
      assert e == Effect([Add("sponge_49", qty)], None, Some(Bag(K49, qty)));
      orders' := Credit(orders, "sponge_49", qty);
      spongeBags' := spongeBags + [Bag(K49, qty)];
    } else {
      assert spongeBags + [] == spongeBags;
      notes' := notes["sponge_unknown" := "未対応スポンジ: " + nameRaw + " / 規格:" + specRaw + " / 数量:" + IntToString(qty)];
    }
  }

  /** The fruit part of the loop body (toOrders.ts:146-157). */
  method FruitRow(orders: map<string, int>, notes: map<string, string>, name: string, qty: int, nameRaw: string)
    returns (orders': map<string, int>, notes': map<string, string>)
    requires orders.Keys == Items.CatalogIds()
    ensures var e := FruitEffect(name, qty, nameRaw);
      && IdsIn(e.adds, orders) && e.bag == None
      && orders' == ApplyAdds(orders, e.adds) && notes' == ApplyNote(notes, e.note)
  {
    ghost var e := FruitEffect(name, qty, nameRaw);
    orders', notes' := orders, notes;
    if Contains(name, "桃") || Contains(name, "もも") {
      assert e == AddOnly("fruit_peach", qty);
      orders' := Credit(orders, "fruit_peach", qty);
    } else if Contains(name, "イチゴ") || Contains(name, "いちご") || Contains(name, "苺") {
      assert e == AddOnly("fruit_angel", qty);
      orders' := Credit(orders, "fruit_angel", qty);
    } else {
      notes' := notes["fruit_unknown" := "未対応フルーツ: " + nameRaw + " / 数量:" + IntToString(qty)];
    }
  }


  lemma {:induction false} ApplyAddsAppend(m: map<string, int>, a: seq<Add>, b: seq<Add>)
    requires forall k :: 0 <= k < |a| ==> a[k].id in m
    requires forall k :: 0 <= k < |b| ==> b[k].id in m
    ensures forall k :: 0 <= k < |a + b| ==> (a + b)[k].id in m
    ensures ApplyAdds(m, a + b) == ApplyAdds(ApplyAdds(m, a), b)
  {
    if b != [] {
      var b' := b[..|b| - 1];
      assert (a + b)[..|a + b| - 1] == a + b';
      ApplyAddsAppend(m, a, b');
    } else {
      assert a + b == a;
    }
  }

  /** Every addition in `adds` names a key of `m`. */
  predicate IdsIn(adds: seq<Add>, m: map<string, int>) {
    forall k :: 0 <= k < |adds| ==> adds[k].id in m
  }

  /** One conditional addition of the "other" section, applied to the running totals. */
  lemma AddIfStep(m: map<string, int>, done: seq<Add>, c: bool, a: Add, cur: map<string, int>)
    requires IdsIn(done, m) && a.id in m && cur == ApplyAdds(m, done)
    ensures IdsIn(AddIf(c, done, a), m)
    ensures a.id in cur
    ensures ApplyAdds(m, AddIf(c, done, a)) == if c then Bump(cur, a) else cur
  {
    if c {
      ApplyAddsSnoc(m, done, a);
    }
  }

  /** `if (c) orders[a.id] += a.qty`, on totals that are `m` after the additions `done`. */
  method AddWhen(m: map<string, int>, ghost done: seq<Add>, cur: map<string, int>, c: bool, a: Add)
    returns (cur': map<string, int>)
    requires IdsIn(done, m) && a.id in m && cur == ApplyAdds(m, done)
    ensures IdsIn(AddIf(c, done, a), m)
    ensures cur' == ApplyAdds(m, AddIf(c, done, a))
  {
    AddIfStep(m, done, c, a, cur);
    cur' := if c then cur[a.id := cur[a.id] + a.qty] else cur;
  }

  /** The "other" tests of the loop body (toOrders.ts:160-163), none of which stops the chain. */
  method OtherPart(orders: map<string, int>, name: string, qty: int) returns (orders': map<string, int>)
    requires "crumble" in orders && "choco" in orders && "white_onion" in orders && "red_onion" in orders
    ensures IdsIn(OtherAdds(name, qty), orders)
    ensures orders' == ApplyAdds(orders, OtherAdds(name, qty))
  {
    var c1 := Contains(name, "クランブル200g");
    var o1 := AddWhen(orders, [], orders, c1, Add("crumble", qty));
    ghost var d1 := AddIf(c1, [], Add("crumble", qty));
    var c2 := Contains(name, "チョコレート500g");
    var o2 := AddWhen(orders, d1, o1, c2, Add("choco", qty));
    ghost var d2 := AddIf(c2, d1, Add("choco", qty));
    var c3 := Contains(name, "白玉ねぎ");
    var o3 := AddWhen(orders, d2, o2, c3, Add("white_onion", qty));
    ghost var d3 := AddIf(c3, d2, Add("white_onion", qty));
    var c4 := Contains(name, "赤玉ねぎ");
    orders' := AddWhen(orders, d3, o3, c4, Add("red_onion", qty));
  }

  /** The chiffon tests of the loop body (toOrders.ts:166-177). */
  method ChiffonPart(orders: map<string, int>, name: string, qty: int) returns (orders': map<string, int>)
    requires orders.Keys == Items.CatalogIds()
    ensures IdsIn(ChiffonAdds(name, qty), orders)
    ensures orders' == ApplyAdds(orders, ChiffonAdds(name, qty))
  {
    orders' := orders;
    if Contains(name, "紅茶") && Contains(name, "シフォン") {
      orders' := Credit(orders, "tea", qty);
    } else if Contains(name, "期間限定") && Contains(name, "シフォン") {
      orders' := Credit(orders, "season", qty);
    } else if Contains(name, "シフォン") {
      orders' := Credit(orders, "plain", qty);
    }
  }


  /** The last part of the loop body (toOrders.ts:160-177): the "other" tests, then the
      chiffon tests. */
  method OtherAndChiffon(orders: map<string, int>, name: string, qty: int) returns (orders': map<string, int>)
    requires orders.Keys == Items.CatalogIds()
    ensures IdsIn(OtherAdds(name, qty) + ChiffonAdds(name, qty), orders)
    ensures orders' == ApplyAdds(orders, OtherAdds(name, qty) + ChiffonAdds(name, qty))
  {
    var mid := OtherPart(orders, name, qty);
    orders' := ChiffonPart(mid, name, qty);
    ApplyAddsAppend(orders, OtherAdds(name, qty), ChiffonAdds(name, qty));
  }

  /** The part of the loop body from the nuts test on (toOrders.ts:104-177). */
  method NutsOnwardRow(orders: map<string, int>, notes: map<string, string>, spongeBags: seq<Bag>,
                       name: string, qty: int, spec: string, nameRaw: string, specRaw: string)
    returns (orders': map<string, int>, notes': map<string, string>, spongeBags': seq<Bag>)
    requires orders.Keys == Items.CatalogIds()
    ensures var e := NutsOnward(name, qty, spec, nameRaw, specRaw);
      && IdsIn(e.adds, orders)
      && orders' == ApplyAdds(orders, e.adds) && notes' == ApplyNote(notes, e.note) && spongeBags' == spongeBags + BagsOf(e.bag)
  {
    ghost var e := NutsOnward(name, qty, spec, nameRaw, specRaw);
    orders', notes', spongeBags' := orders, notes, spongeBags;
    if Contains(name, "クランブルナッツ200g") {
      assert e == AddOnly("nuts", qty);
      assert spongeBags + [] == spongeBags;
      orders' := Credit(orders, "nuts", qty);
    } else if Contains(name, "エンジェルスポンジ") {
      var unit := PickSpongeUnit(name, spec);
      assert e == SpongeEffect(name, unit, qty, nameRaw, specRaw);
      orders', notes', spongeBags' := SpongeRow(orders, notes, spongeBags, name, unit, qty, nameRaw, specRaw);
    } else if Contains(name, "たまご") && (Contains(name, "S") || Contains(name, "Ｓ") || Contains(spec, "S") || Contains(spec, "Ｓ")) {
      assert e == AddOnly("egg_s", qty);
      assert spongeBags + [] == spongeBags;
      orders' := Credit(orders, "egg_s", qty);
    } else if Contains(name, "フルーツ") {
      assert e == FruitEffect(name, qty, nameRaw);
      assert spongeBags + [] == spongeBags;
      orders', notes' := FruitRow(orders, notes, name, qty, nameRaw);
    } else {
      assert e == Effect(OtherAdds(name, qty) + ChiffonAdds(name, qty), None, None);
      assert spongeBags + [] == spongeBags;
      orders' := OtherAndChiffon(orders, name, qty);
    }
  }


  /** The part of the loop body from the rusk tests on (toOrders.ts:86-177). */
  method RuskOnwardRow(orders: map<string, int>, notes: map<string, string>, spongeBags: seq<Bag>,
                       name: string, qty: int, spec: string, nameRaw: string, specRaw: string)
    returns (orders': map<string, int>, notes': map<string, string>, spongeBags': seq<Bag>)
    requires orders.Keys == Items.CatalogIds()
    ensures var e := RuskOnward(name, qty, spec, nameRaw, specRaw);
      && IdsIn(e.adds, orders)
      && orders' == ApplyAdds(orders, e.adds) && notes' == ApplyNote(notes, e.note) && spongeBags' == spongeBags + BagsOf(e.bag)
  {
    ghost var e := RuskOnward(name, qty, spec, nameRaw, specRaw);
    orders', notes', spongeBags' := orders, notes, spongeBags;
    if Contains(name, "伊勢") && (Contains(name, "珈琲") || Contains(name, "コーヒ")) && Contains(name, "ラスク") {
      assert e == AddOnly("rusk_coffee", RuskToPacks(qty));
      assert spongeBags + [] == spongeBags;
      orders' := Credit(orders, "rusk_coffee", RuskToPacks(qty));
    } else if Contains(name, "なぎさ") && Contains(name, "ラスク") {
      assert e == AddOnly("rusk_plain", RuskToPacks(qty));
      assert spongeBags + [] == spongeBags;
      orders' := Credit(orders, "rusk_plain", RuskToPacks(qty));
    } else if Contains(name, "ラスク") {
      var packs := RuskToPacks(qty);
      assert spongeBags + [] == spongeBags;
      if Contains(name, "珈琲") || Contains(name, "コーヒ") {
        assert e == AddOnly("rusk_coffee", packs);
        orders' := Credit(orders, "rusk_coffee", packs);
      } else {
        assert e == AddOnly("rusk_plain", packs);
        orders' := Credit(orders, "rusk_plain", packs);
      }
    } else {
      assert e == NutsOnward(name, qty, spec, nameRaw, specRaw);
      orders', notes', spongeBags' := NutsOnwardRow(orders, notes, spongeBags, name, qty, spec, nameRaw, specRaw);
    }
  }


  /** The body of the row loop (toOrders.ts:61-177); `return` plays the part of `continue`. */
  method ProcessRow(orders: map<string, int>, notes: map<string, string>, spongeBags: seq<Bag>, row: Row)
    returns (orders': map<string, int>, notes': map<string, string>, spongeBags': seq<Bag>)
    requires orders.Keys == Items.CatalogIds()
    ensures var e := Classify(row);
      && IdsIn(e.adds, orders)
      && orders' == ApplyAdds(orders, e.adds) && notes' == ApplyNote(notes, e.note) && spongeBags' == spongeBags + BagsOf(e.bag)
  {
    var nameRaw := Lookup(row, NAME_KEY).GetOr("");
    var name := Norm(nameRaw);
    var qty := ToNumberSafe(Lookup(row, QTY_KEY));
    var specRaw := Lookup(row, SPEC_KEY).GetOr("");
    var spec := Norm(specRaw);
    orders', notes', spongeBags' := FieldsRow(orders, notes, spongeBags, name, qty, spec, nameRaw, specRaw);
  }

  /** The loop body once the name, quantity and spec have been read (toOrders.ts:66-177). */
  method FieldsRow(orders: map<string, int>, notes: map<string, string>, spongeBags: seq<Bag>,
                   name: string, qty: int, spec: string, nameRaw: string, specRaw: string)
    returns (orders': map<string, int>, notes': map<string, string>, spongeBags': seq<Bag>)
    requires orders.Keys == Items.CatalogIds()
    ensures var e := ClassifyFields(name, qty, spec, nameRaw, specRaw);
      && IdsIn(e.adds, orders)
      && orders' == ApplyAdds(orders, e.adds) && notes' == ApplyNote(notes, e.note) && spongeBags' == spongeBags + BagsOf(e.bag)
  {
    ghost var e := ClassifyFields(name, qty, spec, nameRaw, specRaw);
    orders', notes', spongeBags' := orders, notes, spongeBags;
    if name == [] || qty <= 0 {
      assert e == NoEffect;
      assert spongeBags + [] == spongeBags;
    } else if Contains(name, "山パン") || Contains(name, "ちぎり")
      || (Contains(name, "デニッシュ") && !Contains(name, "デニッシュラスク"))
    {
      assert e == NoEffect;
      assert spongeBags + [] == spongeBags;
    } else if Contains(name, "ミルフィーユデニッシュラスク") {
      assert spongeBags + [] == spongeBags;
      if Contains(spec, "5枚") {
        assert e == AddOnly("danish_rusk_5", qty);
        orders' := Credit(orders, "danish_rusk_5", qty);
      } else if Contains(spec, "10枚") {
        assert e == AddOnly("danish_rusk_10", qty);
        orders' := Credit(orders, "danish_rusk_10", qty);
      } else {
        assert e == NoEffect;
      }
    } else {
      assert e == RuskOnward(name, qty, spec, nameRaw, specRaw);
      orders', notes', spongeBags' := RuskOnwardRow(orders, notes, spongeBags, name, qty, spec, nameRaw, specRaw);
    }
  }


  /** `buildOrdersFromCsv`: one pass over the rows, updating the totals, the notes and the
      sponge list; then the breakdown note. */
  method BuildOrdersFromCsv(rows: seq<Row>) returns (result: OrdersWithMeta)
    ensures result == Finish(Run(rows))
  {
    var orders, notes, spongeBags := ProcessRows(rows);
    if |spongeBags| > 0 {
      var s := Join(BagTexts(spongeBags), " / ");
      notes := notes["sponge" := "内訳(数量): " + s];
    }
    result := OrdersWithMeta(orders, notes);
  }

  /** The row loop of `buildOrdersFromCsv` (toOrders.ts:56-178), from the zero map on. */
  method ProcessRows(rows: seq<Row>) returns (orders: map<string, int>, notes: map<string, string>, spongeBags: seq<Bag>)
    ensures Engine(orders, notes, spongeBags) == Run(rows)
  {
    orders := Items.BuildZeroMap();
    notes := map[];
    spongeBags := [];
    for r := 0 to |rows|
      invariant orders == Run(rows[..r]).orders
      invariant notes == Run(rows[..r]).notes
      invariant spongeBags == Run(rows[..r]).bags
    {
      RunPrefix(rows, r);
      orders, notes, spongeBags := ProcessRow(orders, notes, spongeBags, rows[r]);
    }
    assert rows[..|rows|] == rows;
  }
}
