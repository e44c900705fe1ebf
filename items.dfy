/**
 * The fixed, ordered catalog of canonical inventory items (src/domain/items.ts)
 * and the all-zero quantity map seeded from it.
 */
module Items {

  /** Shelving sections: 冷蔵庫 (fridge), 常温 (room temperature), 冷凍庫 (freezer), ストッカー (stocker). */
  datatype Section = Fridge | Ambient | Freezer | Stocker

  /** The display name of a section, as the program spells it. */
  function SectionName(s: Section): string {
    match s
    case Fridge => "冷蔵庫"
    case Ambient => "常温"
    case Freezer => "冷凍庫"
    case Stocker => "ストッカー"
  }

  datatype Item = Item(id: string, name: string, section: Section, targetLabel: string)

  /** The catalog, in layout order. */
  const ITEMS: seq<Item> := [
    Item("choco", "チョコレート500g", Fridge, "適正在庫:12袋"),
    Item("white_onion", "白玉ねぎ", Fridge, "適正在庫:2セット"),
    Item("red_onion", "赤玉ねぎ", Fridge, "適正在庫:2セット"),
    Item("fruit_peach", "季節のフルーツ（桃）", Fridge, "適正在庫:—"),
    Item("fruit_angel", "季節のフルーツ（イチゴ）", Fridge, "適正在庫:—"),
    Item("egg_s", "たまごS", Fridge, "適正在庫:6箱"),

    Item("crumble", "クランブル", Ambient, "適正在庫:20個"),
    Item("rusk_coffee", "ラスク（珈琲）", Ambient, "換算:×48（PDF表示）"),
    Item("rusk_plain", "ラスク（プレーン）", Ambient, "換算:×48（PDF表示）"),
    Item("nuts", "ナッツ", Ambient, "適正在庫:15個"),

    Item("danish_rusk_5", "デニッシュラスク(5枚)", Freezer, "適正在庫:??"),
    Item("danish_rusk_10", "デニッシュラスク(10枚)", Freezer, "適正在庫:??"),
    Item("sponge_raw", "スポンジ（未加工）", Freezer, "換算:×6（PDF表示）"),
    Item("sponge_done", "スポンジ（加工済）", Freezer, "換算:×36（PDF表示）"),
    Item("sponge_60", "スポンジ（60）", Freezer, "—"),
    Item("sponge_36", "スポンジ（36）", Freezer, "—"),
    Item("sponge_49", "スポンジ（49）", Freezer, "—"),
    Item("sponge_144", "スポンジ（144）", Freezer, "—"),
    Item("yamapan", "山パン", Freezer, "適正在庫:9本"),
    Item("chigiri", "ちぎり", Freezer, "適正在庫:13番重"),
    Item("danish", "デニッシュ", Freezer, "適正在庫:16本"),
    Item("plain", "プレーン", Freezer, "適正在庫:8台ずつ"),
    Item("tea", "紅茶", Freezer, "適正在庫:8台ずつ"),
    Item("season", "季節", Freezer, "適正在庫:8台ずつ")
  ]

  /** The ids of the catalog, as a set. */
  function IdSet(): set<string> {
    set i | 0 <= i < |ITEMS| :: ITEMS[i].id
  }

  /** The quantity map with every catalog id at 0: the value `buildZeroMap` builds. */
  function ZeroMap(): (m: map<string, int>)
    ensures m.Keys == IdSet()
  {
    map id | id in IdSet() :: 0
  }

  /** `buildZeroMap`: walks the catalog and writes 0 under every id. */
  method BuildZeroMap() returns (m: map<string, int>)
    ensures m.Keys == IdSet()
    ensures forall id :: id in m ==> m[id] == 0
    ensures m == ZeroMap()
  {
    m := map[];
    for k := 0 to |ITEMS|
      invariant m.Keys == set j | 0 <= j < k :: ITEMS[j].id
      invariant forall id :: id in m ==> m[id] == 0
    {
      m := m[ITEMS[k].id := 0];
    }
    assert forall id :: id in IdSet() <==> exists j :: 0 <= j < |ITEMS| && ITEMS[j].id == id;
  }

  /** The catalog ids are pairwise distinct, so each id names exactly one item. */
  lemma IdsDistinct()
    ensures forall i, j :: 0 <= i < j < |ITEMS| ==> ITEMS[i].id != ITEMS[j].id
  {
  }

  /** The catalog ids, written out. */
  function CatalogIds(): set<string> {
    {"choco", "white_onion", "red_onion", "fruit_peach", "fruit_angel", "egg_s", "crumble",
     "rusk_coffee", "rusk_plain", "nuts", "danish_rusk_5", "danish_rusk_10", "sponge_raw",
     "sponge_done", "sponge_60", "sponge_36", "sponge_49", "sponge_144", "yamapan", "chigiri",
     "danish", "plain", "tea", "season"}
  }

  /** The catalog's id set is exactly the 24 ids written out in `CatalogIds`. */
  lemma IdSetIs()
    ensures IdSet() == CatalogIds()
  {
    IdSetWithin();
    IdSetCovers();
  }

  lemma IdSetWithin()
    ensures IdSet() <= CatalogIds()
  {
  }

  lemma IdSetCovers()
    ensures CatalogIds() <= IdSet()
  {
    assert ITEMS[0].id in IdSet();
    assert ITEMS[1].id in IdSet();
    assert ITEMS[2].id in IdSet();
    assert ITEMS[3].id in IdSet();
    assert ITEMS[4].id in IdSet();
    assert ITEMS[5].id in IdSet();
    assert ITEMS[6].id in IdSet();
    assert ITEMS[7].id in IdSet();
    assert ITEMS[8].id in IdSet();
    assert ITEMS[9].id in IdSet();
    assert ITEMS[10].id in IdSet();
    assert ITEMS[11].id in IdSet();
    assert ITEMS[12].id in IdSet();
    assert ITEMS[13].id in IdSet();
    assert ITEMS[14].id in IdSet();
    assert ITEMS[15].id in IdSet();
    assert ITEMS[16].id in IdSet();
    assert ITEMS[17].id in IdSet();
    assert ITEMS[18].id in IdSet();
    assert ITEMS[19].id in IdSet();
    assert ITEMS[20].id in IdSet();
    assert ITEMS[21].id in IdSet();
    assert ITEMS[22].id in IdSet();
    assert ITEMS[23].id in IdSet();
  }
}
