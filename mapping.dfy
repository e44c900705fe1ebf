/**
 * The static CSV-name-to-catalog mapping table and the product-name
 * normaliser of src/domain/mapping.ts.
 */
module Mapping {
  import opened Wrappers
  import opened Text
  import Items

  datatype MappingRule = MappingRule(itemId: string, csvNames: seq<string>, note: Option<string>)

  const MAPPING: seq<MappingRule> := [
    MappingRule("choco", ["チョコレート500g"], None),
    MappingRule("white_onion", ["白玉ねぎ"], None),
    MappingRule("red_onion", ["赤玉ねぎ"], None),
    MappingRule("fruit_peach", ["季節のフルーツ（桃）", "季節のフルーツ桃"], None),
    MappingRule("fruit_angel", ["季節のフルーツ（イチゴ）", "季節のフルーツイチゴ"], None),
    MappingRule("egg_s", ["たまごS", "FC様用たまごS", "FC用たまごS"], None),
    MappingRule("crumble", ["クランブル200g", "クランブル"], None),
    MappingRule("nuts", ["ナッツ"], None),

    MappingRule("danish_rusk_5", ["ミルフィーユデニッシュラスク"], Some("規格で 5枚/10枚 を判定")),
    MappingRule("danish_rusk_10", ["ミルフィーユデニッシュラスク"], Some("規格で 5枚/10枚 を判定")),

    MappingRule("sponge_raw", ["スポンジ（未加工）"], Some("入力数×6 をPDF表示")),
    MappingRule("sponge_done", ["スポンジ（加工済）"], Some("入力数×36 をPDF表示")),
    MappingRule("sponge_60", ["久居用エンジェルスポンジ60個"], Some("発注内訳: 60 / 36 / 49 / 144")),
    MappingRule("sponge_36", ["エンジェルスポンジ36個"], None),
    MappingRule("sponge_49", ["FCエンジェルスポンジ49【直送】", "FCエンジェルスポンジ49個【直送】"], None),
    MappingRule("sponge_144", ["エンジェルスポンジ144個", "FCエンジェルスポンジ144個", "久居用エンジェルスポンジ144個"], None),

    MappingRule("plain", ["シフォンケーキ6個"], None),
    MappingRule("tea", ["紅茶シフォン6個"], None),
    MappingRule("season", ["期間限定シフォン6個"], None),

    MappingRule("yamapan", ["山パン"], None),
    MappingRule("chigiri", ["ちぎり"], None),
    MappingRule("danish", ["デニッシュ"], None)
  ]

  /** Every rule points at a catalog item. */
  lemma MappingTargetsCatalog()
    ensures forall i :: 0 <= i < |MAPPING| ==> MAPPING[i].itemId in Items.CatalogIds()
  {
  }

  /** The two Danish-rusk widths share one CSV name, so the name alone cannot tell them apart. */
  lemma DanishRuskRulesShareName()
    ensures MAPPING[8].itemId == "danish_rusk_5" && MAPPING[9].itemId == "danish_rusk_10"
    ensures MAPPING[8].csvNames == MAPPING[9].csvNames == ["ミルフィーユデニッシュラスク"]
  {
  }

  // ----- normalizeName -----

  /** One pass of the `.replace(/\s+/g, "")` step: every whitespace character is dropped. */
  function RemoveSpaces(s: string): (r: string)
    ensures NoSpace(r)
    ensures |r| <= |s|
  {
    if s == [] then []
    else (if IsSpace(s[0]) then [] else [s[0]]) + RemoveSpaces(s[1..])
  }

  /** The `.replace(/[()]/g, …)` step: ASCII parentheses become full-width ones. */
  function FullWidthParens(s: string): (r: string)
    ensures |r| == |s|
    ensures forall i :: 0 <= i < |s| ==> r[i] == if s[i] == '(' then '（' else if s[i] == ')' then '）' else s[i]
  {
    if s == [] then []
    else [if s[0] == '(' then '（' else if s[0] == ')' then '）' else s[0]] + FullWidthParens(s[1..])
  }

  /** `normalizeName`: trim, drop all whitespace, fold `(`/`)` to full width, fold `＋` and `：` to ASCII. */
  function NormalizeName(s: string): string {
    ReplaceChar(ReplaceChar(FullWidthParens(RemoveSpaces(Trim(s))), '＋', '+'), '：', ':')
  }

  /** How the normaliser rewrites a single character that it keeps. */
  function NormalizeChar(c: char): char {
    if c == '(' then '（'
    else if c == ')' then '）'
    else if c == '＋' then '+'
    else if c == '：' then ':'
    else c
  }

  /** A one-pass reference definition: keep every non-whitespace character, in order, rewritten. */
  function NormalizeChars(s: string): string {
    if s == [] then []
    else (if IsSpace(s[0]) then [] else [NormalizeChar(s[0])]) + NormalizeChars(s[1..])
  }

  lemma {:induction false} RemoveSpacesAppend(a: string, b: string)
    ensures RemoveSpaces(a + b) == RemoveSpaces(a) + RemoveSpaces(b)
  {
    if a != [] {
      assert (a + b)[0] == a[0];
      assert (a + b)[1..] == a[1..] + b;
      RemoveSpacesAppend(a[1..], b);
      var head := if IsSpace(a[0]) then [] else [a[0]];
      assert RemoveSpaces(a) == head + RemoveSpaces(a[1..]);
      assert RemoveSpaces(a + b) == head + (RemoveSpaces(a[1..]) + RemoveSpaces(b));
    } else {
      assert a + b == b;
    }
  }

  /** Leading whitespace is removed anyway. */
  lemma {:induction false} RemoveSpacesTrimStart(s: string)
    ensures RemoveSpaces(TrimStart(s)) == RemoveSpaces(s)
  {
    if s != [] && IsSpace(s[0]) {
      RemoveSpacesTrimStart(s[1..]);
    }
  }

  /** Trailing whitespace is removed anyway. */
  lemma {:induction false} RemoveSpacesTrimEnd(s: string)
    ensures RemoveSpaces(TrimEnd(s)) == RemoveSpaces(s)
  {
    if s != [] && IsSpace(s[|s| - 1]) {
      var n := |s| - 1;
      RemoveSpacesTrimEnd(s[..n]);
      assert s == s[..n] + [s[n]];
      RemoveSpacesAppend(s[..n], [s[n]]);
      assert RemoveSpaces([s[n]]) == [];
    }
  }

  /** Trimming first makes no difference once every whitespace character is removed anyway. */
  lemma RemoveSpacesTrim(s: string)
    ensures RemoveSpaces(Trim(s)) == RemoveSpaces(s)
  {
    RemoveSpacesTrimEnd(TrimStart(s));
    RemoveSpacesTrimStart(s);
  }

  lemma PassesAreOnePass(s: string)
    ensures ReplaceChar(ReplaceChar(FullWidthParens(RemoveSpaces(s)), '＋', '+'), '：', ':') == NormalizeChars(s)
  {
    NormalizeCharsKeeps(s);
    PassesRewrite(RemoveSpaces(s));
  }

  /** The three replacement passes rewrite each character as `NormalizeChar` does. */
  lemma PassesRewrite(x: string)
    ensures ReplaceChar(ReplaceChar(FullWidthParens(x), '＋', '+'), '：', ':') == RewriteAll(x)
  {
    var a := FullWidthParens(x);
    var b := ReplaceChar(a, '＋', '+');
    var c := ReplaceChar(b, '：', ':');
    forall i | 0 <= i < |x| ensures c[i] == RewriteAll(x)[i] {
      assert c[i] == if b[i] == '：' then ':' else b[i];
      assert b[i] == if a[i] == '＋' then '+' else a[i];
    }
  }

  /** `normalizeName` equals the one-pass reference definition. */
  lemma NormalizeNameIsOnePass(s: string)
    ensures NormalizeName(s) == NormalizeChars(s)
  {
    RemoveSpacesTrim(s);
    PassesAreOnePass(s);
  }

  /** The output of the normaliser contains no whitespace and no `(`, `)`, `＋`, `：`. */
  lemma {:induction false} NormalizeCharsClean(s: string)
    ensures NoSpace(NormalizeChars(s))
    ensures forall c :: c in NormalizeChars(s) ==> c != '(' && c != ')' && c != '＋' && c != '：'
  {
    if s != [] { NormalizeCharsClean(s[1..]); }
  }

  /** `normalizeName` keeps exactly the non-whitespace characters: at each kept position the
      rewritten character, and nothing else. */
  lemma {:induction false} NormalizeCharsKeeps(s: string)
    ensures NormalizeChars(s) == RewriteAll(RemoveSpaces(s))
  {
    if s != [] { NormalizeCharsKeeps(s[1..]); }
  }

  /** Character-by-character image under `NormalizeChar`. */
  function RewriteAll(s: string): (r: string)
    ensures |r| == |s| && forall i :: 0 <= i < |s| ==> r[i] == NormalizeChar(s[i])
  {
    if s == [] then [] else [NormalizeChar(s[0])] + RewriteAll(s[1..])
  }

  /** The normaliser output has no whitespace. */
  lemma NormalizeNameNoSpace(s: string)
    ensures NoSpace(NormalizeName(s))
  {
    NormalizeNameIsOnePass(s);
    NormalizeCharsClean(s);
  }

  lemma {:induction false} NormalizeCharsIdempotent(s: string)
    ensures NormalizeChars(NormalizeChars(s)) == NormalizeChars(s)
  {
    if s != [] {
      NormalizeCharsIdempotent(s[1..]);
      var n := NormalizeChars(s);
      if !IsSpace(s[0]) {
        var c := NormalizeChar(s[0]);
        assert n == [c] + NormalizeChars(s[1..]);
        assert n[0] == c && n[1..] == NormalizeChars(s[1..]);
        assert !IsSpace(c) && NormalizeChar(c) == c;
        assert NormalizeChars(n) == [c] + NormalizeChars(n[1..]);
      } else {
        assert n == NormalizeChars(s[1..]);
      }
    }
  }

  /** Normalising a normalised name changes nothing. */
  lemma NormalizeNameIdempotent(s: string)
    ensures NormalizeName(NormalizeName(s)) == NormalizeName(s)
  {
    NormalizeNameIsOnePass(s);
    NormalizeNameIsOnePass(NormalizeName(s));
    NormalizeCharsIdempotent(s);
  }
}
