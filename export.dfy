/**
 * The print payload built by the export screen (src/routes/Export.tsx):
 * the note of each catalog item from the mapping table, the number guard,
 * the display conversion of the sponge stock counts, and one payload entry
 * per catalog item.
 */
module Export {
  import opened Wrappers
  import opened Js
  import Items
  import Mapping
  import ToOrders
  import PrintHtml

  // ----- buildNoteMap -----

  /** `if (r.note)`: the rule has a note and it is not the empty string. */
  predicate Noted(r: Mapping.MappingRule) {
    r.note.Some? && r.note.value != []
  }

  /** The notes of the rules, applied in order, so that a later noted rule for an id replaces an
      earlier one. */
  function NoteMapOf(rules: seq<Mapping.MappingRule>): map<string, string> {
    if rules == [] then map[]
    else
      var m := NoteMapOf(rules[..|rules| - 1]);
      var r := rules[|rules| - 1];
      if Noted(r) then m[r.itemId := r.note.value] else m
  }

  /** Rule `k` is the last noted rule for `id`. */
  predicate LastNotedFor(rules: seq<Mapping.MappingRule>, id: string, k: int) {
    && 0 <= k < |rules| && Noted(rules[k]) && rules[k].itemId == id
    && forall j :: k < j < |rules| ==> !(Noted(rules[j]) && rules[j].itemId == id)
  }

  /** An id has a note exactly when some rule for it has one, and the note is that of the last
      such rule. */
  lemma {:induction false} NoteMapLastWins(rules: seq<Mapping.MappingRule>, id: string)
    ensures id in NoteMapOf(rules) <==> exists k :: 0 <= k < |rules| && Noted(rules[k]) && rules[k].itemId == id
    ensures id in NoteMapOf(rules) ==>
      exists k :: LastNotedFor(rules, id, k) && NoteMapOf(rules)[id] == rules[k].note.value
  {
    if rules != [] {
      var n := |rules| - 1;
      var prefix := rules[..n];
      NoteMapLastWins(prefix, id);
      var r := rules[n];
      if Noted(r) && r.itemId == id {
        assert LastNotedFor(rules, id, n);
      } else {
        assert NoteMapOf(rules) == NoteMapOf(prefix) || id != r.itemId;
        if id in NoteMapOf(prefix) {
          var k :| LastNotedFor(prefix, id, k) && NoteMapOf(prefix)[id] == prefix[k].note.value;
          assert LastNotedFor(rules, id, k);
        }
        if exists k :: 0 <= k < |rules| && Noted(rules[k]) && rules[k].itemId == id {
          var k :| 0 <= k < |rules| && Noted(rules[k]) && rules[k].itemId == id;
          assert k < n && prefix[k] == rules[k];
        }
      }
    }
  }

  /** `buildNoteMap`: one pass over the mapping table, writing each noted rule's note under its
      item id. */
  method BuildNoteMap() returns (m: map<string, string>)
    ensures m == NoteMapOf(Mapping.MAPPING)
  {
    m := map[];
    for i := 0 to |Mapping.MAPPING|
      invariant m == NoteMapOf(Mapping.MAPPING[..i])
    {
      var r := Mapping.MAPPING[i];
      assert Mapping.MAPPING[..i + 1][..i] == Mapping.MAPPING[..i];
      if r.note.Some? && r.note.value != [] {
        m := m[r.itemId := r.note.value];
      }
    }
    assert Mapping.MAPPING[..|Mapping.MAPPING|] == Mapping.MAPPING;
  }

  // ----- safeNum, displayStock, displayOrder -----

  /** `safeNum(state.stock?.[id])`: a finite number is kept, anything else is 0. */
  function SafeNum(x: Option<Num>): (r: int)
    ensures x.Some? && x.value.Finite? ==> r == x.value.value
    ensures !(x.Some? && x.value.Finite?) ==> r == 0
  {
    match x
    case Some(Finite(v)) => v
    case _ => 0
  }

  /** The export guard and the printer's guard agree on every number and on a missing one. */
  lemma SafeNumIsNumSafe(x: Option<Num>)
    ensures SafeNum(x) == PrintHtml.NumSafe(x)
  {
  }

  function Get(m: map<string, Num>, id: string): Option<Num> {
    if id in m then Some(m[id]) else None
  }

  /** `displayStock`: unprocessed sponge is entered in units of 6 pieces and processed sponge in
      units of 36; every other stock count is shown as entered. */
  function DisplayStock(id: string, raw: int): int {
    if id == "sponge_raw" then raw * 6
    else if id == "sponge_done" then raw * 36
    else raw
  }

  /** `displayOrder`: orders are shown as they are. */
  function DisplayOrder(id: string, raw: int): int {
    raw
  }

  // ----- the payload -----

  /** The entry of catalog item `it`. */
  function Entry(it: Items.Item, stock: map<string, Num>, orders: map<string, Num>, notes: map<string, string>): PrintHtml.PrintItem {
    PrintHtml.PrintItem(it.id, it.name, it.targetLabel,
                        Finite(DisplayStock(it.id, SafeNum(Get(stock, it.id)))),
                        Finite(DisplayOrder(it.id, SafeNum(Get(orders, it.id)))),
                        if it.id in notes then Some(notes[it.id]) else None)
  }

  /** The payload `onPrint` hands to the printer for the stored stock and order maps. */
  function PrintPayload(stock: map<string, Num>, orders: map<string, Num>): (p: PrintHtml.Payload)
    ensures |p.items| == |Items.ITEMS|
  {
    var notes := NoteMapOf(Mapping.MAPPING);
    PrintHtml.Payload("もちミックス",
      seq(|Items.ITEMS|, k requires 0 <= k < |Items.ITEMS| => Entry(Items.ITEMS[k], stock, orders, notes)))
  }

  /** One entry per catalog item, in catalog order, with the item's id, name and target label;
      the numbers are finite, and only the two sponge stock counts are converted. */
  lemma PayloadFollowsCatalog(stock: map<string, Num>, orders: map<string, Num>, k: nat)
    requires k < |Items.ITEMS|
    ensures var e := PrintPayload(stock, orders).items[k];
      var it := Items.ITEMS[k];
      && e.id == it.id && e.labelText == it.name && e.targetLabel == it.targetLabel
      && e.stock.Finite? && e.order.Finite?
      && e.order.value == SafeNum(Get(orders, it.id))
      && e.stock.value == (if it.id == "sponge_raw" then 6 else if it.id == "sponge_done" then 36 else 1) * SafeNum(Get(stock, it.id))
      && (e.note.Some? <==> exists j :: 0 <= j < |Mapping.MAPPING| && Noted(Mapping.MAPPING[j]) && Mapping.MAPPING[j].itemId == it.id)
  {
    NoteMapLastWins(Mapping.MAPPING, Items.ITEMS[k].id);
  }

  /** The entry the printer finds for a catalog id is that item's entry. */
  lemma PayloadLookup(stock: map<string, Num>, orders: map<string, Num>, k: nat)
    requires k < |Items.ITEMS|
    ensures PrintHtml.ById(PrintPayload(stock, orders).items, Items.ITEMS[k].id) == Some(PrintPayload(stock, orders).items[k])
  {
    var items := PrintPayload(stock, orders).items;
    Items.IdsDistinct();
    assert forall i :: 0 <= i < |items| ==> items[i].id == Items.ITEMS[i].id;
    PrintHtml.ByIdDistinct(items, k);
  }

  /** The sponge cell reads the unprocessed-sponge stock converted ×6. */
  lemma SpongeRawShown(stock: map<string, Num>, orders: map<string, Num>)
    ensures PrintHtml.SpongeSlot(PrintPayload(stock, orders).items).raw == 6 * SafeNum(Get(stock, "sponge_raw"))
  {
    var items := PrintPayload(stock, orders).items;
    var e := items[12];
    assert PrintHtml.ById(items, "sponge_raw") == Some(e) by {
      PayloadLookup(stock, orders, 12);
      assert Items.ITEMS[12].id == "sponge_raw";
    }
    assert e.stock == Finite(6 * SafeNum(Get(stock, "sponge_raw"))) by {
      PayloadFollowsCatalog(stock, orders, 12);
      assert Items.ITEMS[12].id == "sponge_raw";
    }
    PrintHtml.SpongeRawOfEntry(items, e);
  }

  /** The sponge cell reads the processed-sponge stock converted ×36. */
  lemma SpongeDoneShown(stock: map<string, Num>, orders: map<string, Num>)
    ensures PrintHtml.SpongeSlot(PrintPayload(stock, orders).items).done == 36 * SafeNum(Get(stock, "sponge_done"))
  {
    var items := PrintPayload(stock, orders).items;
    var e := items[13];
    assert PrintHtml.ById(items, "sponge_done") == Some(e) by {
      PayloadLookup(stock, orders, 13);
      assert Items.ITEMS[13].id == "sponge_done";
    }
    assert e.stock == Finite(36 * SafeNum(Get(stock, "sponge_done"))) by {
      PayloadFollowsCatalog(stock, orders, 13);
      assert Items.ITEMS[13].id == "sponge_done";
    }
    PrintHtml.SpongeDoneOfEntry(items, e);
  }

  /** On the printed sheet the sponge cell shows 6 and 36 times the entered sponge stock counts. */
  lemma PrintedSpongeStock(stock: map<string, Num>, orders: map<string, Num>)
    ensures var s := PrintHtml.BuildPrintHtml(PrintPayload(stock, orders));
      && s.row2[4].SpongeSlotView?
      && s.row2[4].sponge.raw == 6 * SafeNum(Get(stock, "sponge_raw"))
      && s.row2[4].sponge.done == 36 * SafeNum(Get(stock, "sponge_done"))
  {
    PrintHtml.Row2Slots(PrintPayload(stock, orders));
    SpongeRawShown(stock, orders);
    SpongeDoneShown(stock, orders);
  }

  /** A rusk half over the entry of a catalog item other than the two sponge ones shows 48 times
      its stock and its order in packs. */
  lemma RuskHalfOfEntry(stock: map<string, Num>, orders: map<string, Num>, k: nat, id: string)
    requires k < |Items.ITEMS| && Items.ITEMS[k].id == id && id != "sponge_raw" && id != "sponge_done"
    ensures var h := PrintHtml.RuskHalf(PrintHtml.ById(PrintPayload(stock, orders).items, id));
      && h.stock == 48 * SafeNum(Get(stock, id))
      && h.order == ToOrders.RuskToPacks(SafeNum(Get(orders, id)))
  {
    var items := PrintPayload(stock, orders).items;
    PayloadLookup(stock, orders, k);
    var e := items[k];
    assert e == Entry(Items.ITEMS[k], stock, orders, NoteMapOf(Mapping.MAPPING));
    assert e.stock == Finite(SafeNum(Get(stock, id)));
    assert e.order == Finite(SafeNum(Get(orders, id)));
    PrintHtml.RuskHalfRule(Some(e));
  }

  /** The coffee half reads the entry of `rusk_coffee`. */
  lemma RuskCoffeeShown(stock: map<string, Num>, orders: map<string, Num>)
    ensures var h := PrintHtml.RuskHalf(PrintHtml.ById(PrintPayload(stock, orders).items, "rusk_coffee"));
      && h.stock == 48 * SafeNum(Get(stock, "rusk_coffee"))
      && h.order == ToOrders.RuskToPacks(SafeNum(Get(orders, "rusk_coffee")))
  {
    assert Items.ITEMS[7].id == "rusk_coffee";
    RuskHalfOfEntry(stock, orders, 7, "rusk_coffee");
  }

  /** The plain half reads the entry of `rusk_plain`. */
  lemma RuskPlainShown(stock: map<string, Num>, orders: map<string, Num>)
    ensures var h := PrintHtml.RuskHalf(PrintHtml.ById(PrintPayload(stock, orders).items, "rusk_plain"));
      && h.stock == 48 * SafeNum(Get(stock, "rusk_plain"))
      && h.order == ToOrders.RuskToPacks(SafeNum(Get(orders, "rusk_plain")))
  {
    assert Items.ITEMS[8].id == "rusk_plain";
    RuskHalfOfEntry(stock, orders, 8, "rusk_plain");
  }

  /** The rusk cell shows 48 times the entered rusk stock, and the order in packs. */
  lemma PrintedRuskCell(stock: map<string, Num>, orders: map<string, Num>)
    ensures var s := PrintHtml.BuildPrintHtml(PrintPayload(stock, orders));
      && s.row2[1].RuskSlot?
      && s.row2[1].coffee.stock == 48 * SafeNum(Get(stock, "rusk_coffee"))
      && s.row2[1].coffee.order == ToOrders.RuskToPacks(SafeNum(Get(orders, "rusk_coffee")))
      && s.row2[1].plain.stock == 48 * SafeNum(Get(stock, "rusk_plain"))
      && s.row2[1].plain.order == ToOrders.RuskToPacks(SafeNum(Get(orders, "rusk_plain")))
  {
    PrintHtml.Row2Slots(PrintPayload(stock, orders));
    RuskCoffeeShown(stock, orders);
    RuskPlainShown(stock, orders);
  }
}
