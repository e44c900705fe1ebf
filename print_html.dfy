/**
 * The values the order sheet of src/features/export/buildPrintHtml.ts puts
 * into its cells: HTML escaping, the number guard, the plain, split and
 * sponge cells with their warn highlight, the two display normalisers and
 * the three-row layout.  The markup around the values is not modelled.
 */
module PrintHtml {
  import opened Wrappers
  import opened Text
  import opened Js
  import Items
  import ToOrders

  // ----- esc -----

  /** The characters `esc` replaces. */
  predicate Special(c: char) {
    c == '&' || c == '<' || c == '>' || c == '"' || c == '\''
  }

  /** The replacement of one character. */
  function EscChar(c: char): (r: string)
    ensures Special(c) ==> |r| >= 4 && r[0] == '&' && r[|r| - 1] == ';'
    ensures !Special(c) ==> r == [c]
  {
    if c == '&' then "&amp;"
    else if c == '<' then "&lt;"
    else if c == '>' then "&gt;"
    else if c == '"' then "&quot;"
    else if c == '\'' then "&#39;"
    else [c]
  }

  /** `esc`: every special character replaced by its entity, everything else kept. */
  function Esc(s: string): string {
    if s == [] then [] else EscChar(s[0]) + Esc(s[1..])
  }

  /** `t` begins with `p`. */
  predicate StartsWith(t: string, p: string) {
    |p| <= |t| && t[..|p|] == p
  }

  /** The inverse of `esc`: the five entities read back as their characters. */
  function Unescape(t: string): string
    decreases |t|
  {
    if t == [] then []
    else if StartsWith(t, "&amp;") then ['&'] + Unescape(t[5..])
    else if StartsWith(t, "&lt;") then ['<'] + Unescape(t[4..])
    else if StartsWith(t, "&gt;") then ['>'] + Unescape(t[4..])
    else if StartsWith(t, "&quot;") then ['"'] + Unescape(t[6..])
    else if StartsWith(t, "&#39;") then ['\''] + Unescape(t[5..])
    else [t[0]] + Unescape(t[1..])
  }

  /** `t` does not begin with `p` when they differ at a position both have. */
  lemma NotStartsWith(t: string, p: string, i: nat)
    requires i < |p| && i < |t| && t[i] != p[i]
    ensures !StartsWith(t, p)
  {
    if |p| <= |t| { assert t[..|p|][i] == t[i]; }
  }

  lemma StartsWithEntity(e: string, rest: string)
    ensures StartsWith(e + rest, e) && (e + rest)[|e|..] == rest
  {
    assert (e + rest)[..|e|] == e;
  }

  lemma UnescapeEntity(c: char, rest: string)
    ensures Unescape(EscChar(c) + rest) == [c] + Unescape(rest)
  {
    var t := EscChar(c) + rest;
    StartsWithEntity(EscChar(c), rest);
    if c == '&' {
    } else if c == '<' {
      NotStartsWith(t, "&amp;", 1);
    } else if c == '>' {
      NotStartsWith(t, "&amp;", 1);
      NotStartsWith(t, "&lt;", 1);
    } else if c == '"' {
      NotStartsWith(t, "&amp;", 1);
      NotStartsWith(t, "&lt;", 1);
      NotStartsWith(t, "&gt;", 1);
    } else if c == '\'' {
      NotStartsWith(t, "&amp;", 1);
      NotStartsWith(t, "&lt;", 1);
      NotStartsWith(t, "&gt;", 1);
      NotStartsWith(t, "&quot;", 1);
    } else {
      assert t[0] == c && t[1..] == rest;
      NotStartsWith(t, "&amp;", 0);
      NotStartsWith(t, "&lt;", 0);
      NotStartsWith(t, "&gt;", 0);
      NotStartsWith(t, "&quot;", 0);
      NotStartsWith(t, "&#39;", 0);
    }
  }

  /** Unescaping the output of `esc` gives the input back, so escaping loses nothing. */
  lemma {:induction false} UnescapeEsc(s: string)
    ensures Unescape(Esc(s)) == s
  {
    if s != [] {
      UnescapeEntity(s[0], Esc(s[1..]));
      UnescapeEsc(s[1..]);
    }
  }

  /** `t` begins with one of the five entities `esc` writes. */
  predicate EntityStart(t: string) {
    StartsWith(t, "&amp;") || StartsWith(t, "&lt;") || StartsWith(t, "&gt;")
    || StartsWith(t, "&quot;") || StartsWith(t, "&#39;")
  }

  /** The output of `esc` holds no `<`, `>`, `"` or `'`, and every `&` in it begins an entity. */
  lemma EscSafe(s: string)
    ensures forall c :: c in Esc(s) ==> c != '<' && c != '>' && c != '"' && c != '\''
    ensures forall i :: 0 <= i < |Esc(s)| && Esc(s)[i] == '&' ==> EntityStart(Esc(s)[i..])
  {
    EscNoMarkup(s);
    EscEntities(s);
  }

  lemma {:induction false} EscNoMarkup(s: string)
    ensures forall c :: c in Esc(s) ==> c != '<' && c != '>' && c != '"' && c != '\''
  {
    if s != [] {
      EscNoMarkup(s[1..]);
      var h, t := EscChar(s[0]), Esc(s[1..]);
      assert Esc(s) == h + t;
      assert forall c :: c in h ==> c != '<' && c != '>' && c != '"' && c != '\'';
    }
  }

  lemma {:induction false} EscEntities(s: string)
    ensures forall i :: 0 <= i < |Esc(s)| && Esc(s)[i] == '&' ==> EntityStart(Esc(s)[i..])
  {
    if s != [] {
      EscEntities(s[1..]);
      EscCharEntities(s[0], Esc(s[1..]));
      assert Esc(s) == EscChar(s[0]) + Esc(s[1..]);
    }
  }

  /** In the replacement of one character an `&` can only come first, and then it begins an
      entity whatever follows. */
  lemma EscCharAmpersands(c: char, rest: string)
    ensures forall i :: 0 <= i < |EscChar(c)| && EscChar(c)[i] == '&' ==> i == 0 && EntityStart(EscChar(c) + rest)
  {
    StartsWithEntity(EscChar(c), rest);
  }

  /** Putting the replacement of one character in front keeps every `&` at an entity. */
  lemma EscCharEntities(c: char, t: string)
    requires forall i :: 0 <= i < |t| && t[i] == '&' ==> EntityStart(t[i..])
    ensures forall i :: 0 <= i < |EscChar(c) + t| && (EscChar(c) + t)[i] == '&' ==> EntityStart((EscChar(c) + t)[i..])
  {
    var h := EscChar(c);
    EscCharAmpersands(c, t);
    forall i | 0 <= i < |h + t| && (h + t)[i] == '&' ensures EntityStart((h + t)[i..]) {
      if i < |h| {
        assert h[i] == '&';
      } else {
        assert (h + t)[i..] == t[i - |h|..];
        assert t[i - |h|] == '&';
      }
    }
  }

  /** A text without special characters is printed as it is. */
  lemma {:induction false} EscPlain(s: string)
    requires forall c :: c in s ==> !Special(c)
    ensures Esc(s) == s
  {
    if s != [] {
      assert s[0] in s;
      assert forall c :: c in s[1..] ==> c in s;
      EscPlain(s[1..]);
    }
  }

  // ----- numSafe -----

  /** `numSafe`: a finite number is kept; NaN, an infinity and `undefined` give 0. */
  function NumSafe(x: Option<Num>): int {
    match x
    case Some(Finite(v)) => v
    case _ => 0
  }

  // ----- the payload -----

  /** One entry of the print payload. */
  datatype PrintItem = PrintItem(id: string, labelText: string, targetLabel: string, stock: Num, order: Num, note: Option<string>)

  datatype Payload = Payload(title: string, items: seq<PrintItem>)

  /** `new Map(items.map((x) => [x.id, x])).get(id)`: a later entry with the same id replaces
      an earlier one. */
  function ById(items: seq<PrintItem>, id: string): (r: Option<PrintItem>)
    ensures r.Some? ==> r.value in items && r.value.id == id
    ensures r.None? ==> forall k :: 0 <= k < |items| ==> items[k].id != id
  {
    if items == [] then None
    else if items[|items| - 1].id == id then Some(items[|items| - 1])
    else ById(items[..|items| - 1], id)
  }

  /** The entry found is the last one with that id. */
  lemma {:induction false} ByIdLast(items: seq<PrintItem>, id: string)
    ensures ById(items, id).Some? ==>
      exists k :: 0 <= k < |items| && items[k] == ById(items, id).value
                  && forall j :: k < j < |items| ==> items[j].id != id
  {
    if items != [] && items[|items| - 1].id != id {
      var init := items[..|items| - 1];
      ByIdLast(init, id);
      if ById(init, id).Some? {
        var k :| 0 <= k < |init| && init[k] == ById(init, id).value
                 && forall j :: k < j < |init| ==> init[j].id != id;
        assert forall j :: k < j < |items| ==> items[j].id != id by {
          forall j | k < j < |items|
            ensures items[j].id != id
          {
            if j < |init| {
              assert items[j] == init[j];
            }
          }
        }
        assert items[k] == init[k];
      }
    } else if items != [] {
      assert items[|items| - 1] == ById(items, id).value;
    }
  }

  /** With distinct ids the map finds each entry. */
  lemma {:induction false} ByIdDistinct(items: seq<PrintItem>, k: nat)
    requires k < |items|
    requires forall i, j :: 0 <= i < j < |items| ==> items[i].id != items[j].id
    ensures ById(items, items[k].id) == Some(items[k])
  {
    if k < |items| - 1 {
      ByIdDistinct(items[..|items| - 1], k);
    }
  }

  // ----- cell -----

  /** What `non-breaking space` stands for in an empty slot. */
  const NBSP: string := "&nbsp;"

  /** The values of one plain cell. */
  datatype CellView = CellView(blank: bool, labelText: string, target: string, stock: int, order: int,
                               warn: bool, orderHidden: bool, note: string)

  function StockOf(item: Option<PrintItem>): Option<Num> {
    match item
    case None => None
    case Some(it) => Some(it.stock)
  }

  function OrderOf(item: Option<PrintItem>): Option<Num> {
    match item
    case None => None
    case Some(it) => Some(it.order)
  }

  /** `cell`. */
  function Cell(item: Option<PrintItem>, blank: bool, hideOrder: bool): CellView {
    var stockN := if blank then 0 else NumSafe(StockOf(item));
    var orderN := if blank then 0 else NumSafe(OrderOf(item));
    CellView(
      blank,
      if blank then NBSP else Esc(if item.Some? then item.value.labelText else ""),
      if blank then NBSP else Esc(if item.Some? then item.value.targetLabel else ""),
      stockN,
      orderN,
      !blank && !hideOrder && orderN > stockN,
      hideOrder,
      if blank then NBSP
      else if item.Some? && item.value.note.Some? && item.value.note.value != [] then Esc(item.value.note.value)
      else NBSP)
  }

  /** A plain cell warns exactly when it is not blank, does not hide its order, and the order it
      shows exceeds the stock it shows; the numbers shown are the guarded payload numbers. */
  lemma CellWarnRule(item: Option<PrintItem>, blank: bool, hideOrder: bool)
    ensures var v := Cell(item, blank, hideOrder);
      && (v.warn <==> !blank && !hideOrder && v.order > v.stock)
      && (blank ==> v.stock == 0 && v.order == 0 && !v.warn)
      && (!blank && item.Some? && item.value.stock.Finite? ==> v.stock == item.value.stock.value)
      && (!blank && item.Some? && item.value.order.Finite? ==> v.order == item.value.order.value)
      && (!blank && (item.None? || !item.value.stock.Finite?) ==> v.stock == 0)
      && (!blank && (item.None? || !item.value.order.Finite?) ==> v.order == 0)
      && (hideOrder ==> !v.warn)
  {
  }

  // ----- split cells -----

  /** One half of a split cell. */
  datatype Half = Half(target: string, stock: int, order: int, warn: bool)

  function TargetOf(item: Option<PrintItem>, default: string): string {
    match item
    case None => default
    case Some(it) => it.targetLabel
  }

  /** One half of `danishSplitCell`: the guarded payload numbers, 0 for a missing item or a
      number that is not finite, and a warning exactly when the order exceeds the stock. */
  function DanishHalf(item: Option<PrintItem>): (h: Half)
    ensures item.Some? && item.value.stock.Finite? ==> h.stock == item.value.stock.value
    ensures item.Some? && item.value.order.Finite? ==> h.order == item.value.order.value
    ensures (item.None? || !item.value.stock.Finite?) ==> h.stock == 0
    ensures (item.None? || !item.value.order.Finite?) ==> h.order == 0
    ensures h.warn <==> h.order > h.stock
  {
    var stockN := NumSafe(StockOf(item));
    var orderN := NumSafe(OrderOf(item));
    Half(Esc(TargetOf(item, "")), stockN, orderN, orderN > stockN)
  }

  /** `normalizeRuskPacks`: an order that is a multiple of 48 (at least 48) is read as pieces
      and shown in packs; any other positive order is already packs. */
  function NormalizeRuskPacks(o: int): (p: int)
    ensures o <= 0 ==> p == 0
    ensures o >= 48 && o % 48 == 0 ==> p * 48 == o
    ensures o > 0 && !(o >= 48 && o % 48 == 0) ==> p == o
  {
    if o <= 0 then 0
    else if o >= 48 && o % 48 == 0 then o / 48
    else o
  }

  /** The printer's correction is the engine's conversion: applied to every input, the two
      agree. */
  lemma NormalizeRuskPacksIsRuskToPacks(o: int)
    ensures NormalizeRuskPacks(o) == ToOrders.RuskToPacks(o)
  {
  }

  /** The default target label of a missing rusk entry. */
  const RUSK_TARGET: string := "換算×48（PDF表示）"

  /** One half of `ruskSplitCell`: the stock is shown ×48, the order in packs, and the warning
      compares the order with the stock as entered. */
  function RuskHalf(item: Option<PrintItem>): Half {
    var stockRaw := NumSafe(StockOf(item));
    var order := NormalizeRuskPacks(NumSafe(OrderOf(item)));
    Half(Esc(TargetOf(item, RUSK_TARGET)), stockRaw * 48, order, order > stockRaw)
  }

  /** The rusk cell shows 48 times the entered stock but warns on the entered stock:
      it warns exactly when 48 times the packs ordered exceed the stock shown. */
  lemma RuskHalfRule(item: Option<PrintItem>)
    ensures var h := RuskHalf(item);
      && h.stock == 48 * NumSafe(StockOf(item))
      && h.order == ToOrders.RuskToPacks(NumSafe(OrderOf(item)))
      && (h.warn <==> h.order * 48 > h.stock)
      && h.order >= 0
  {
  }

  // ----- the sponge cell -----

  /** `normalizeSpongeQty`: an order that is a multiple of the pack size, at least one pack and
      at most 9999 packs, is read as pieces and shown in packs. */
  function NormalizeSpongeQty(o: int, unit: int): (q: int)
    ensures unit <= 0 ==> q == o
    ensures unit > 0 && o <= 0 ==> q == 0
    ensures unit > 0 && o >= unit && o % unit == 0 && 1 <= o / unit <= 9999 ==> q * unit == o
    ensures unit > 0 && o > 0 && !(o >= unit && o % unit == 0 && o / unit <= 9999) ==> q == o
  {
    if unit <= 0 then o
    else if o <= 0 then 0
    else if o >= unit && o % unit == 0 && 1 <= o / unit <= 9999 then o / unit
    else o
  }

  /** A piece count of 1..9999 packs is shown as the number of packs; an order of fewer
      packs than the pack size is shown as it is. */
  lemma SpongeQtyReadsPieces(q: int, unit: int)
    requires unit == 60 || unit == 36 || unit == 49 || unit == 144
    requires 1 <= q <= 9999
    ensures NormalizeSpongeQty(q * unit, unit) == q
    ensures q < unit ==> NormalizeSpongeQty(q, unit) == q
  {
    if unit == 60 {
      assert (q * 60) / 60 == q && (q * 60) % 60 == 0;
    } else if unit == 36 {
      assert (q * 36) / 36 == q && (q * 36) % 36 == 0;
    } else if unit == 49 {
      assert (q * 49) / 49 == q && (q * 49) % 49 == 0;
    } else {
      assert (q * 144) / 144 == q && (q * 144) % 144 == 0;
    }
  }

  /** The values of the sponge cell. */
  datatype SpongeView = SpongeView(raw: int, done: int, q60: int, q36: int, q49: int, q144: int, totalPieces: int)

  /** `spongeWideCell`. */
  function SpongeWide(stockRaw: Num, stockDone: Num, o60: Num, o36: Num, o49: Num, o144: Num): SpongeView {
    var q60 := NormalizeSpongeQty(NumSafe(Some(o60)), 60);
    var q36 := NormalizeSpongeQty(NumSafe(Some(o36)), 36);
    var q49 := NormalizeSpongeQty(NumSafe(Some(o49)), 49);
    var q144 := NormalizeSpongeQty(NumSafe(Some(o144)), 144);
    SpongeView(NumSafe(Some(stockRaw)), NumSafe(Some(stockDone)), q60, q36, q49, q144,
               q60 * 60 + q36 * 36 + q49 * 49 + q144 * 144)
  }

  /** `byId.get(id)?.order ?? 0`. */
  function OrderOrZero(item: Option<PrintItem>): Num {
    match item
    case None => Finite(0)
    case Some(it) => it.order
  }

  /** `raw ? { stock: raw.stock } : { stock: 0 }`. */
  function StockOrZero(item: Option<PrintItem>): Num {
    match item
    case None => Finite(0)
    case Some(it) => it.stock
  }

  /** The sponge cell in the sheet, from the entries of the six sponge ids. */
  function SpongeSlot(items: seq<PrintItem>): SpongeView {
    SpongeWide(StockOrZero(ById(items, "sponge_raw")), StockOrZero(ById(items, "sponge_done")),
               OrderOrZero(ById(items, "sponge_60")), OrderOrZero(ById(items, "sponge_36")),
               OrderOrZero(ById(items, "sponge_49")), OrderOrZero(ById(items, "sponge_144")))
  }

  /** The sponge cell shows the stock counts of the two stock entries, 0 for a missing one. */
  lemma SpongeStockShown(items: seq<PrintItem>)
    ensures SpongeSlot(items).raw == NumSafe(Some(StockOrZero(ById(items, "sponge_raw"))))
    ensures SpongeSlot(items).done == NumSafe(Some(StockOrZero(ById(items, "sponge_done"))))
  {
  }

  /** The unprocessed-sponge count is read from whichever entry the lookup finds. */
  lemma SpongeRawOfEntry(items: seq<PrintItem>, e: PrintItem)
    requires ById(items, "sponge_raw") == Some(e)
    ensures SpongeSlot(items).raw == NumSafe(Some(e.stock))
  {
    SpongeStockShown(items);
  }

  /** The processed-sponge count is read from whichever entry the lookup finds. */
  lemma SpongeDoneOfEntry(items: seq<PrintItem>, e: PrintItem)
    requires ById(items, "sponge_done") == Some(e)
    ensures SpongeSlot(items).done == NumSafe(Some(e.stock))
  {
    SpongeStockShown(items);
  }

  /** The total is the number of pieces of the normalised pack counts; a missing sub-id counts
      as 0, and the total is never negative. */
  lemma SpongeTotalRule(items: seq<PrintItem>)
    ensures var v := SpongeSlot(items);
      && v.totalPieces == v.q60 * 60 + v.q36 * 36 + v.q49 * 49 + v.q144 * 144
      && v.q60 >= 0 && v.q36 >= 0 && v.q49 >= 0 && v.q144 >= 0 && v.totalPieces >= 0
      && (ById(items, "sponge_60").None? ==> v.q60 == 0)
      && (ById(items, "sponge_36").None? ==> v.q36 == 0)
      && (ById(items, "sponge_49").None? ==> v.q49 == 0)
      && (ById(items, "sponge_144").None? ==> v.q144 == 0)
  {
  }

  // ----- buildPrintHtml -----

  /** One slot of the second row. */
  datatype Slot =
    | PlainSlot(cell: CellView)
    | RuskSlot(coffee: Half, plain: Half)
    | DanishSlot(five: Half, ten: Half)
    | SpongeSlotView(sponge: SpongeView)

  /** The values of the whole sheet. */
  datatype Sheet = Sheet(title: string, row1: seq<CellView>, row2: seq<Slot>, row3: seq<CellView>)

  const ROW1: seq<string> := ["choco", "white_onion", "red_onion", "fruit_peach", "fruit_angel", "egg_s"]
  const ROW2: seq<string> := ["crumble", "rusk_split", "nuts", "danish_rusk_split", "sponge_wide2"]
  const ROW3: seq<string> := ["yamapan", "chigiri", "danish", "plain", "tea", "season"]

  /** A slot of the second row, by its layout id. */
  function Row2Slot(items: seq<PrintItem>, id: string): Slot {
    if id == "danish_rusk_split" then DanishSlot(DanishHalf(ById(items, "danish_rusk_5")), DanishHalf(ById(items, "danish_rusk_10")))
    else if id == "rusk_split" then RuskSlot(RuskHalf(ById(items, "rusk_coffee")), RuskHalf(ById(items, "rusk_plain")))
    else if id == "sponge_wide2" then SpongeSlotView(SpongeSlot(items))
    else PlainSlot(Cell(ById(items, id), false, false))
  }

  /** The bread ids whose order is hidden on the sheet. */
  predicate HidesOrder(id: string) {
    id == "yamapan" || id == "chigiri" || id == "danish"
  }

  /** A cell of the third row. */
  function Row3Cell(items: seq<PrintItem>, id: string): CellView {
    Cell(ById(items, id), false, HidesOrder(id))
  }

  /** `buildPrintHtml`, as the values it lays out. */
  function BuildPrintHtml(p: Payload): (s: Sheet)
    ensures |s.row1| == |ROW1| && |s.row2| == |ROW2| && |s.row3| == |ROW3|
  {
    Sheet(Esc(p.title),
          seq(|ROW1|, k requires 0 <= k < |ROW1| => Cell(ById(p.items, ROW1[k]), false, false)),
          seq(|ROW2|, k requires 0 <= k < |ROW2| => Row2Slot(p.items, ROW2[k])),
          seq(|ROW3|, k requires 0 <= k < |ROW3| => Row3Cell(p.items, ROW3[k])))
  }

  /** The split and sponge slots of the second row, at the positions of the layout. */
  lemma Row2Slots(p: Payload)
    ensures BuildPrintHtml(p).row2[1] == RuskSlot(RuskHalf(ById(p.items, "rusk_coffee")), RuskHalf(ById(p.items, "rusk_plain")))
    ensures BuildPrintHtml(p).row2[3] == DanishSlot(DanishHalf(ById(p.items, "danish_rusk_5")), DanishHalf(ById(p.items, "danish_rusk_10")))
    ensures BuildPrintHtml(p).row2[4] == SpongeSlotView(SpongeSlot(p.items))
  {
    var s := BuildPrintHtml(p);
    assert s.row2[1] == Row2Slot(p.items, ROW2[1]);
    assert s.row2[3] == Row2Slot(p.items, ROW2[3]);
    assert s.row2[4] == Row2Slot(p.items, ROW2[4]);
  }

  /** The bread cells hide their order and never warn, whatever the numbers; the other cells of
      the third row warn exactly when the order exceeds the stock. */
  lemma BreadCellsNeverWarn(p: Payload)
    ensures var s := BuildPrintHtml(p);
      && (forall k :: 0 <= k < 3 ==> s.row3[k].orderHidden && !s.row3[k].warn)
      && (forall k :: 3 <= k < 6 ==> !s.row3[k].orderHidden && (s.row3[k].warn <==> s.row3[k].order > s.row3[k].stock))
  {
  }

  /** The ids each slot of the sheet reads, in layout order. */
  function ShownIds(): seq<string> {
    ROW1 + ROW2_READS + ROW3
  }

  /** The ids the five slots of the second row read, the split and sponge slots several each. */
  const ROW2_READS: seq<string> :=
    ["crumble", "rusk_coffee", "rusk_plain", "nuts", "danish_rusk_5", "danish_rusk_10",
     "sponge_raw", "sponge_done", "sponge_60", "sponge_36", "sponge_49", "sponge_144"]

  /** The sheet reads the catalog items in catalog order, each one once. */
  lemma SheetFollowsCatalog()
    ensures |ShownIds()| == |Items.ITEMS|
    ensures forall k :: 0 <= k < |ShownIds()| ==> ShownIds()[k] == Items.ITEMS[k].id
  {
    Row1FollowsCatalog();
    Row2FollowsCatalog();
    Row3FollowsCatalog();
    var ids := ShownIds();
    forall k | 0 <= k < |ids| ensures ids[k] == Items.ITEMS[k].id {
      if k < 6 {
        assert ids[k] == ROW1[k];
      } else if k < 18 {
        assert ids[k] == ROW2_READS[k - 6];
      } else {
        assert ids[k] == ROW3[k - 18];
      }
    }
  }

  lemma Row1FollowsCatalog()
    ensures forall k :: 0 <= k < |ROW1| ==> ROW1[k] == Items.ITEMS[k].id
  {
  }

  lemma Row2FollowsCatalog()
    ensures forall k :: 0 <= k < |ROW2_READS| ==> ROW2_READS[k] == Items.ITEMS[6 + k].id
  {
  }

  lemma Row3FollowsCatalog()
    ensures forall k :: 0 <= k < |ROW3| ==> ROW3[k] == Items.ITEMS[18 + k].id
  {
  }

  /** So every catalog id is read by some slot, and no two slots read the same id. */
  lemma SheetCoversCatalog()
    ensures (set k | 0 <= k < |ShownIds()| :: ShownIds()[k]) == Items.IdSet()
    ensures forall i, j :: 0 <= i < j < |ShownIds()| ==> ShownIds()[i] != ShownIds()[j]
  {
    SheetFollowsCatalog();
    Items.IdsDistinct();
    var ids := ShownIds();
    assert (set k | 0 <= k < |ids| :: ids[k]) == (set k | 0 <= k < |Items.ITEMS| :: Items.ITEMS[k].id);
  }

  /** Two payloads whose maps find the same entry for `id`. */
  predicate SameEntry(p: Payload, q: Payload, id: string) {
    ById(p.items, id) == ById(q.items, id)
  }

  lemma Row1Reads(p: Payload, q: Payload)
    requires forall k :: 0 <= k < |ROW1| ==> SameEntry(p, q, ROW1[k])
    ensures BuildPrintHtml(p).row1 == BuildPrintHtml(q).row1
  {
    var sp, sq := BuildPrintHtml(p).row1, BuildPrintHtml(q).row1;
    forall k | 0 <= k < |ROW1| ensures sp[k] == sq[k] {
      assert SameEntry(p, q, ROW1[k]);
    }
  }

  lemma Row3Reads(p: Payload, q: Payload)
    requires forall k :: 0 <= k < |ROW3| ==> SameEntry(p, q, ROW3[k])
    ensures BuildPrintHtml(p).row3 == BuildPrintHtml(q).row3
  {
    var sp, sq := BuildPrintHtml(p).row3, BuildPrintHtml(q).row3;
    forall k | 0 <= k < |ROW3| ensures sp[k] == sq[k] {
      assert SameEntry(p, q, ROW3[k]);
    }
  }

  lemma SpongeSlotReads(p: Payload, q: Payload)
    requires SameEntry(p, q, "sponge_raw") && SameEntry(p, q, "sponge_done")
    requires SameEntry(p, q, "sponge_60") && SameEntry(p, q, "sponge_36")
    requires SameEntry(p, q, "sponge_49") && SameEntry(p, q, "sponge_144")
    ensures SpongeSlot(p.items) == SpongeSlot(q.items)
  {
  }

  lemma Row2Reads(p: Payload, q: Payload)
    requires forall k :: 0 <= k < |ROW2_READS| ==> SameEntry(p, q, ROW2_READS[k])
    ensures BuildPrintHtml(p).row2 == BuildPrintHtml(q).row2
  {
    var r := ROW2_READS;
    var sp, sq := BuildPrintHtml(p).row2, BuildPrintHtml(q).row2;
    assert SameEntry(p, q, r[6]) && SameEntry(p, q, r[7]) && SameEntry(p, q, r[8]);
    assert SameEntry(p, q, r[9]) && SameEntry(p, q, r[10]) && SameEntry(p, q, r[11]);
    SpongeSlotReads(p, q);
    forall k | 0 <= k < |ROW2| ensures sp[k] == sq[k] {
      assert sp[k] == Row2Slot(p.items, ROW2[k]) && sq[k] == Row2Slot(q.items, ROW2[k]);
      if k == 0 {
        assert SameEntry(p, q, r[0]);
      } else if k == 1 {
        assert SameEntry(p, q, r[1]) && SameEntry(p, q, r[2]);
      } else if k == 2 {
        assert SameEntry(p, q, r[3]);
      } else if k == 3 {
        assert SameEntry(p, q, r[4]) && SameEntry(p, q, r[5]);
      }
    }
  }

  /** The sheet depends on the payload only through its title and the entries the map finds
      for the ids of `ShownIds`: those are all the slots read. */
  lemma SheetReadsShownIds(p: Payload, q: Payload)
    requires p.title == q.title
    requires forall k :: 0 <= k < |ShownIds()| ==> ById(p.items, ShownIds()[k]) == ById(q.items, ShownIds()[k])
    ensures BuildPrintHtml(p) == BuildPrintHtml(q)
  {
    var ids := ShownIds();
    assert forall k :: 0 <= k < |ROW1| ==> ids[k] == ROW1[k];
    assert forall k :: 0 <= k < |ROW2_READS| ==> ids[6 + k] == ROW2_READS[k];
    assert forall k :: 0 <= k < |ROW3| ==> ids[18 + k] == ROW3[k];
    Row1Reads(p, q);
    Row2Reads(p, q);
    Row3Reads(p, q);
  }
}
