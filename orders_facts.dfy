/**
 * What the order engine of src/features/csv/toOrders.ts promises, stated
 * and proved about the model in module ToOrders: the quantity parser, the
 * unit rules, the order of the decision chain, and the totals, the sponge
 * list and the notes after all rows.
 */
module OrdersFacts {
  import opened Wrappers
  import opened Text
  import Items
  import opened ToOrders

  // ----- toNumberSafe -----

  /** Skipping a digit-free prefix: a match starts at the first digit run, or at a `-`
      right before it. */
  lemma {:induction false} FirstSignedRunSkip(p: string, s: string)
    requires NoDigit(p)
    requires s != [] && IsDigit(s[0]) ==> p == [] || p[|p| - 1] != '-'
    ensures FirstSignedRun(p + s) == FirstSignedRun(s)
  {
    if p != [] {
      assert (p + s)[0] == p[0] && p[0] in p;
      assert (p + s)[1..] == p[1..] + s;
      if |p + s| >= 2 && p[0] == '-' {
        if |p| >= 2 {
          assert (p + s)[1] == p[1] && p[1] in p;
        } else {
          assert (p + s)[1] == s[0];
        }
      }
      assert NoDigit(p[1..]) by {
        forall c | c in p[1..] ensures !IsDigit(c) { assert c in p; }
      }
      assert p[1..] != [] ==> p[1..][|p[1..]| - 1] == p[|p| - 1];
      assert FirstSignedRun(p + s) == FirstSignedRun(p[1..] + s);
      FirstSignedRunSkip(p[1..], s);
    } else {
      assert p + s == s;
    }
  }

  /** The first unsigned digit run after a digit-free prefix is the number read. */
  lemma FirstSignedRunPositive(p: string, d: string, r: string)
    requires NoDigit(p) && (p == [] || p[|p| - 1] != '-')
    requires d != [] && AllDigits(d) && (r == [] || !IsDigit(r[0]))
    ensures FirstSignedRun(p + d + r) == Some(DecimalValue(d))
  {
    assert p + d + r == p + (d + r);
    FirstSignedRunSkip(p, d + r);
    assert (d + r)[0] == d[0];
    LeadingDigitsOf(d, r);
  }

  /** A `-` directly before the first digit run makes the number negative. */
  lemma FirstSignedRunNegative(p: string, d: string, r: string)
    requires NoDigit(p)
    requires d != [] && AllDigits(d) && (r == [] || !IsDigit(r[0]))
    ensures FirstSignedRun(p + "-" + d + r) == Some(-(DecimalValue(d) as int))
  {
    var s := ['-'] + (d + r);
    assert p + "-" + d + r == p + s;
    FirstSignedRunSkip(p, s);
    FirstSignedRunMinus(d, r);
  }

  lemma FirstSignedRunMinus(d: string, r: string)
    requires d != [] && AllDigits(d) && (r == [] || !IsDigit(r[0]))
    ensures FirstSignedRun(['-'] + (d + r)) == Some(-(DecimalValue(d) as int))
  {
    var s := ['-'] + (d + r);
    assert s[1..] == d + r;
    assert s[0] == '-' && s[1] == d[0];
    LeadingDigitsOf(d, r);
    assert LeadingDigits(s[1..]) == d;
  }

  /** `toNumberSafe` reads the first digit run of the trimmed field, with a `-` right before it. */
  lemma ToNumberSafeReads(x: string, p: string, neg: bool, d: string, r: string)
    requires Trim(x) == p + (if neg then "-" else "") + d + r
    requires NoDigit(p) && (!neg ==> p == [] || p[|p| - 1] != '-')
    requires d != [] && AllDigits(d) && (r == [] || !IsDigit(r[0]))
    ensures ToNumberSafe(Some(x)) == if neg then -(DecimalValue(d) as int) else DecimalValue(d)
  {
    if neg {
      FirstSignedRunNegative(p, d, r);
    } else {
      assert p + "" + d + r == p + d + r;
      FirstSignedRunPositive(p, d, r);
    }
  }

  /** Reading back a quantity written by `String(n)` gives `n`. */
  lemma ToNumberSafeNumeral(n: int)
    ensures ToNumberSafe(Some(IntToString(n))) == n
  {
    var s := IntToString(n);
    var d := NatToString(if n < 0 then -n else n);
    assert !IsSpace(s[0]) && !IsSpace(s[|s| - 1]);
    TrimClean(s);
    if n < 0 {
      assert s == [] + "-" + d + [];
      ToNumberSafeReads(s, [], true, d, []);
    } else {
      assert s == [] + "" + d + [];
      ToNumberSafeReads(s, [], false, d, []);
    }
  }

  // ----- ruskToPacks -----

  /** The worked examples: 96 pieces are 2 packs, 48 pieces 1 pack, 47 stays 47. */
  lemma RuskToPacksExamples()
    ensures RuskToPacks(96) == 2 && RuskToPacks(48) == 1 && RuskToPacks(47) == 47
    ensures RuskToPacks(100) == 100 && RuskToPacks(0) == 0
  {
  }

  // ----- pickSpongeUnitFromNameOrSpec -----

  lemma {:induction false} NameUnitSkip(p: string, s: string)
    requires NoDigit(p)
    ensures NameUnit(p + s) == NameUnit(s)
  {
    if p != [] {
      assert (p + s)[0] == p[0] && p[0] in p;
      assert (p + s)[1..] == p[1..] + s;
      assert NoDigit(p[1..]) by {
        forall c | c in p[1..] ensures !IsDigit(c) { assert c in p; }
      }
      assert NameUnit(p + s) == NameUnit(p[1..] + s);
      NameUnitSkip(p[1..], s);
    } else {
      assert p + s == s;
    }
  }

  /** A prefix the name search passes over without effect: no `N個` inside it, and it does
      not end in a digit, so no digit run in it runs on into what follows. */
  predicate NameSkips(p: string)
  {
    NameUnit(p) == None && (p == [] || !IsDigit(p[|p| - 1]))
  }

  /** In a text that does not end in a digit, the leading digit run stops before the end. */
  lemma LeadingDigitsStop(p: string)
    requires p != [] && !IsDigit(p[|p| - 1])
    ensures |LeadingDigits(p)| < |p|
  {
    LeadingDigitsWhole(p);
  }

  /** A leading digit run that covers the whole text ends with the text's last character. */
  lemma LeadingDigitsWhole(p: string)
    requires p != []
    ensures |LeadingDigits(p)| == |p| ==> IsDigit(p[|p| - 1])
  {
    var d := LeadingDigits(p);
    if |d| == |p| {
      assert d == p;
      assert IsDigit(d[|d| - 1]);
    }
  }

  /** Digit runs not followed by `個` are passed over: the first run that carries `個`
      decides, wherever it stands. */
  lemma {:induction false} NameUnitSkipRuns(p: string, s: string)
    requires NameSkips(p)
    ensures NameUnit(p + s) == NameUnit(s)
    decreases |p|
  {
    if p == [] {
      assert p + s == s;
    } else if !IsDigit(p[0]) {
      assert (p + s)[0] == p[0];
      assert (p + s)[1..] == p[1..] + s;
      assert p[1..] == [] || p[1..][|p[1..]| - 1] == p[|p| - 1];
      NameUnitSkipRuns(p[1..], s);
    } else {
      var d := LeadingDigits(p);
      LeadingDigitsStop(p);
      var rest := p[|d|..];
      assert p == d + rest;
      assert p + s == d + (rest + s);
      assert (rest + s)[0] == rest[0] == p[|d|];
      LeadingDigitsOf(d, rest + s);
      assert (p + s)[|d|] == p[|d|];
      assert (p + s)[|d|..] == rest + s;
      assert rest[|rest| - 1] == p[|p| - 1];
      NameUnitSkipRuns(rest, s);
    }
  }

  /** The unit written `N個` in the name, after any prefix the search passes over, is `N`:
      `スポンジ2段60個` has unit 60. */
  lemma NameUnitReads(p: string, d: string, r: string)
    requires NameSkips(p) && d != [] && AllDigits(d)
    ensures NameUnit(p + d + "個" + r) == Some(DecimalValue(d))
  {
    var s := d + ("個" + r);
    assert p + d + "個" + r == p + s;
    NameUnitSkipRuns(p, s);
    NameUnitAt(d, "個" + r);
  }

  /** A digit-free prefix is passed over by the name search. */
  lemma NoDigitNameSkips(p: string)
    requires NoDigit(p)
    ensures NameSkips(p)
  {
    NameUnitSkip(p, []);
    assert p + [] == p;
    if p != [] {
      assert p[|p| - 1] in p;
    }
  }

  /** A digit run followed by `個` is the unit. */
  lemma NameUnitAt(d: string, t: string)
    requires d != [] && AllDigits(d) && t != [] && t[0] == '個'
    ensures NameUnit(d + t) == Some(DecimalValue(d))
  {
    var s := d + t;
    LeadingDigitsOf(d, t);
    assert s[0] == d[0] && s[|d|] == t[0];
  }

  lemma {:induction false} SpecUnitSkip(p: string, s: string)
    requires NoDigit(p)
    ensures SpecUnit(p + s) == SpecUnit(s)
  {
    if p != [] {
      assert (p + s)[0] == p[0] && p[0] in p;
      assert (p + s)[1..] == p[1..] + s;
      assert NoDigit(p[1..]) by {
        forall c | c in p[1..] ensures !IsDigit(c) { assert c in p; }
      }
      assert SpecUnit(p + s) == SpecUnit(p[1..] + s);
      SpecUnitSkip(p[1..], s);
    } else {
      assert p + s == s;
    }
  }

  /** A character that cannot continue a spec match begun before it: not a digit, a point
      or a slash. */
  predicate SpecBoundary(c: char)
  {
    !IsDigit(c) && c != '.' && c != '/' && c != '／'
  }

  /** A prefix the spec search passes over without effect: no unit inside it, and either no
      digit at all or an end no match can run on from (a digit run ending in `60.` might
      still meet `5/個` after it). */
  predicate SpecSkips(p: string)
  {
    SpecUnit(p) == None && (NoDigit(p) || (p != [] && SpecBoundary(p[|p| - 1])))
  }

  /** A slash piece is decided inside a text that ends on a boundary character. */
  lemma SlashPieceAppend(r: string, s: string)
    requires r != [] && SpecBoundary(r[|r| - 1])
    ensures SlashPiece(r + s) == SlashPiece(r)
  {
    assert (r + s)[0] == r[0];
    if |r| >= 2 {
      assert (r + s)[1] == r[1];
    }
  }

  /** A unit tail is decided inside a text that ends on a boundary character. */
  lemma UnitTailAppend(r: string, s: string)
    requires r != [] && SpecBoundary(r[|r| - 1])
    ensures UnitTail(r + s) == UnitTail(r)
  {
    SlashPieceAppend(r, s);
    assert (r + s)[0] == r[0];
    if |r| >= 2 && r[0] == '.' && IsDigit(r[1]) {
      assert (r + s)[1] == r[1];
      var m := r[1..];
      var f := LeadingDigits(m);
      assert m[|m| - 1] == r[|r| - 1];
      LeadingDigitsStop(m);
      var after := m[|f|..];
      assert m == f + after;
      assert (r + s)[1..] == f + (after + s);
      assert (after + s)[0] == after[0];
      LeadingDigitsOf(f, after + s);
      assert r[1 + |f|..] == after;
      assert (r + s)[1 + |f|..] == after + s;
      assert after[|after| - 1] == r[|r| - 1];
      SlashPieceAppend(after, s);
    }
  }

  /** Digit runs with no unit tail are passed over, as long as the prefix ends on a
      boundary. */
  lemma {:induction false} SpecUnitSkipRuns(p: string, s: string)
    requires SpecUnit(p) == None && p != [] && SpecBoundary(p[|p| - 1])
    ensures SpecUnit(p + s) == SpecUnit(s)
    decreases |p|
  {
    if |p| == 1 {
      assert (p + s)[0] == p[0];
      assert (p + s)[1..] == s;
    } else if !IsDigit(p[0]) {
      assert (p + s)[0] == p[0];
      assert (p + s)[1..] == p[1..] + s;
      assert p[1..][|p[1..]| - 1] == p[|p| - 1];
      SpecUnitSkipRuns(p[1..], s);
    } else {
      var d := LeadingDigits(p);
      LeadingDigitsStop(p);
      var rest := p[|d|..];
      assert p == d + rest;
      assert p + s == d + (rest + s);
      assert (rest + s)[0] == rest[0] == p[|d|];
      LeadingDigitsOf(d, rest + s);
      assert (p + s)[|d|..] == rest + s;
      assert rest[|rest| - 1] == p[|p| - 1];
      UnitTailAppend(rest, s);
      if |rest| > 1 {
        SpecUnitSkipRuns(rest, s);
      } else {
        assert SpecUnit(rest) == SpecUnit(rest[1..]);
        assert rest + s == [rest[0]] + s;
        assert (rest + s)[1..] == s;
      }
    }
  }

  /** Whatever the spec search passes over leaves the rest of the text to decide. */
  lemma SpecSkipsAppend(p: string, s: string)
    requires SpecSkips(p)
    ensures SpecUnit(p + s) == SpecUnit(s)
  {
    if NoDigit(p) {
      SpecUnitSkip(p, s);
    } else {
      SpecUnitSkipRuns(p, s);
    }
  }

  /** The unit written `N/個`, `N／個` or `N.M／個` in the spec, after any prefix the search
      passes over, is `N`: `10枚60.00／個` has unit 60. */
  lemma SpecUnitReads(p: string, d: string, frac: string, slash: char, r: string)
    requires SpecSkips(p) && d != [] && AllDigits(d) && AllDigits(frac)
    requires slash == '/' || slash == '／'
    ensures SpecUnit(p + d + (if frac == [] then [] else ['.'] + frac) + [slash, '個'] + r) == Some(DecimalValue(d))
  {
    var tail := (if frac == [] then [] else ['.'] + frac) + [slash, '個'] + r;
    assert p + d + (if frac == [] then [] else ['.'] + frac) + [slash, '個'] + r == p + (d + tail);
    SpecSkipsAppend(p, d + tail);
    UnitTailOf(frac, slash, r);
    SpecUnitAt(d, tail);
  }

  /** A digit-free prefix is passed over by the spec search. */
  lemma NoDigitSpecSkips(p: string)
    requires NoDigit(p)
    ensures SpecSkips(p)
  {
    SpecUnitSkip(p, []);
    assert p + [] == p;
  }

  /** The slash and `個`, with or without a decimal fraction before them, may follow the
      captured digits. */
  lemma UnitTailOf(frac: string, slash: char, r: string)
    requires AllDigits(frac) && (slash == '/' || slash == '／')
    ensures UnitTail((if frac == [] then [] else ['.'] + frac) + [slash, '個'] + r)
  {
    var after := [slash, '個'] + r;
    if frac == [] {
      assert [] + after == after;
    } else {
      var tail := ['.'] + frac + after;
      assert (['.'] + frac) + [slash, '個'] + r == tail;
      assert tail[1..] == frac + after;
      assert tail[1] == frac[0];
      LeadingDigitsOf(frac, after);
      assert tail[1 + |frac|..] == after;
      assert SlashPiece(after);
    }
  }

  /** A digit run followed by a unit tail is the unit. */
  lemma SpecUnitAt(d: string, tail: string)
    requires d != [] && AllDigits(d) && UnitTail(tail)
    ensures SpecUnit(d + tail) == Some(DecimalValue(d))
  {
    var s := d + tail;
    LeadingDigitsOf(d, tail);
    assert s[0] == d[0] && s[|d|..] == tail;
  }

  /** Why a spec prefix must end on a boundary: a match begun in `60.` runs on into `5/個`,
      so `60.5/個` has unit 60, not 5. */
  lemma SpecMatchRunsOn()
    ensures SpecUnit("60." + "5/個") == Some(60)
  {
    var s := "60.5/個";
    assert "60." + "5/個" == s;
    LeadingDigitsOf("60", ".5/個");
    assert s == "60" + ".5/個";
    var tail := ".5/個";
    LeadingDigitsOf("5", "/個");
    assert tail[1..] == "5" + "/個";
    assert tail[2..] == "/個";
    assert UnitTail(tail);
    SpecUnitAt("60", tail);
    SixtyValue();
  }

  /** A unit in the name wins over one in the spec. */
  lemma NameUnitFirst(p: string, d: string, r: string, spec: string)
    requires NameSkips(p) && d != [] && AllDigits(d)
    ensures PickSpongeUnit(p + d + "個" + r, spec) == DecimalValue(d)
  {
    NameUnitReads(p, d, r);
  }

  /** A digit run that is not the unit is passed over by the name search. */
  lemma NameSkipsExample()
    ensures NameSkips("スポンジ2段")
  {
    assert NameUnit("2段") == NameUnit("段") by {
      LeadingDigitsOf("2", "段");
      assert "2段"[1..] == "段";
    }
    assert NameUnit("段") == NameUnit([]) by { assert "段"[1..] == []; }
    NameUnitSkip("スポンジ", "2段");
    assert "スポンジ" + "2段" == "スポンジ2段";
  }

  /** A digit run that is not the unit is passed over by the spec search. */
  lemma SpecSkipsExample()
    ensures SpecSkips("10枚")
  {
    LeadingDigitsOf("10", "枚");
    assert "10枚"[2..] == "枚";
    assert SpecUnit("枚") == SpecUnit([]) by { assert "枚"[1..] == []; }
  }

  lemma SixtyValue()
    ensures DecimalValue("60") == 60
  {
    assert "60"[..1] == "6";
    assert "6"[..0] == [];
  }

  /** The worked example with a digit run ahead of the unit in the name: `スポンジ2段60個`
      has unit 60. */
  lemma NameUnitAfterOtherRun()
    ensures NameUnit("スポンジ2段60個") == Some(60)
  {
    var p, d := "スポンジ2段", "60";
    SixtyValue();
    NameSkipsExample();
    NameUnitReads(p, d, "");
    assert p + d + "個" + "" == "スポンジ2段60個";
  }

  /** The worked example with a digit run ahead of the unit in the spec: `10枚60.00／個`
      has unit 60. */
  lemma SpecUnitAfterOtherRun()
    ensures SpecUnit("10枚60.00／個") == Some(60)
  {
    var p, d, f := "10枚", "60", "00";
    SixtyValue();
    SpecSkipsExample();
    SpecUnitReads(p, d, f, '／', "");
    var s := p + d + (['.'] + f) + ['／', '個'] + "";
    assert s == "10枚60.00／個" by {
      assert p + d == "10枚60";
      assert p + d + (['.'] + f) == "10枚60.00";
    }
  }

  // ----- the decision chain -----

  /** A row whose normalised name is empty or whose quantity is not positive changes nothing. */
  lemma SkippedRowChangesNothing(s: Engine, row: Row)
    requires s.orders.Keys == Items.CatalogIds()
    requires Norm(NameRaw(row)) == [] || ToNumberSafe(Lookup(row, QTY_KEY)) <= 0
    ensures Classify(row) == NoEffect
    ensures Step(s, Classify(row)) == s
  {
    assert s.bags + [] == s.bags;
  }

  /** Bread names are never counted, whatever else the name contains. */
  lemma BreadIsNeverCounted(name: string, qty: int, spec: string, nameRaw: string, specRaw: string)
    requires IsBread(name)
    ensures ClassifyFields(name, qty, spec, nameRaw, specRaw) == NoEffect
  {
  }

  /** The name of the Danish rusk contains "デニッシュラスク", so it is not taken for bread. */
  lemma MilleFeuilleIsNotBread(name: string)
    requires Contains(name, "ミルフィーユデニッシュラスク")
    ensures Contains(name, "デニッシュラスク")
  {
    ContainsMiddle("ミルフィーユ", "デニッシュラスク", []);
    assert "ミルフィーユ" + "デニッシュラスク" + [] == "ミルフィーユデニッシュラスク";
    ContainsTransitive(name, "ミルフィーユデニッシュラスク", "デニッシュラスク");
  }

  /** A Danish-rusk row adds its whole quantity to the 5-slice id when the spec says 5枚,
      else to the 10-slice id when it says 10枚, else nowhere, and writes no note. */
  lemma DanishRuskRow(name: string, qty: int, spec: string, nameRaw: string, specRaw: string)
    requires name != [] && qty > 0
    requires !Contains(name, "山パン") && !Contains(name, "ちぎり")
    requires Contains(name, "ミルフィーユデニッシュラスク")
    ensures ClassifyFields(name, qty, spec, nameRaw, specRaw) ==
      if Contains(spec, "5枚") then AddOnly("danish_rusk_5", qty)
      else if Contains(spec, "10枚") then AddOnly("danish_rusk_10", qty)
      else NoEffect
  {
    MilleFeuilleIsNotBread(name);
  }

  /** Every remaining name with ラスク is consumed by the rusk branches: coffee when the name
      has a coffee word and is not a なぎさ name without 伊勢, plain otherwise; the quantity goes
      through `ruskToPacks`. */
  lemma RuskRowsAreConsumed(name: string, qty: int, spec: string, nameRaw: string, specRaw: string)
    requires name != [] && qty > 0 && !IsBread(name)
    requires !Contains(name, "ミルフィーユデニッシュラスク") && Contains(name, "ラスク")
    ensures ClassifyFields(name, qty, spec, nameRaw, specRaw) ==
      AddOnly(if IsCoffeeWord(name) && (Contains(name, "伊勢") || !Contains(name, "なぎさ")) then "rusk_coffee" else "rusk_plain",
              RuskToPacks(qty))
  {
  }

  /** The egg test runs before the fruit test: an egg name that also says フルーツ is an egg. */
  lemma EggBeforeFruit(name: string, qty: int, spec: string, nameRaw: string, specRaw: string)
    requires name != [] && qty > 0 && !IsBread(name) && !Contains(name, "ラスク")
    requires !Contains(name, "クランブルナッツ200g") && !Contains(name, "エンジェルスポンジ")
    requires IsEggS(name, spec) && Contains(name, "フルーツ")
    ensures ClassifyFields(name, qty, spec, nameRaw, specRaw) == AddOnly("egg_s", qty)
  {
    assert !Contains(name, "ミルフィーユデニッシュラスク") by {
      if Contains(name, "ミルフィーユデニッシュラスク") {
        ContainsMiddle("ミルフィーユデニッシュ", "ラスク", []);
        assert "ミルフィーユデニッシュ" + "ラスク" + [] == "ミルフィーユデニッシュラスク";
        ContainsTransitive(name, "ミルフィーユデニッシュラスク", "ラスク");
      }
    }
  }

  /** A sponge row with a recognised unit adds its quantity to exactly one sub-id and records
      one entry of the same kind and quantity; otherwise it only overwrites the unknown-sponge
      note. */
  lemma SpongeRowRule(name: string, unit: nat, qty: int, nameRaw: string, specRaw: string)
    ensures var e := SpongeEffect(name, unit, qty, nameRaw, specRaw);
      && (e.bag.Some? <==> unit in {60, 36, 144, 49} || Contains(name, "直送"))
      && (e.bag.Some? ==> e.adds == [Add(KindId(e.bag.value.kind), qty)] && e.bag.value.qty == qty && e.note == None)
      && (e.bag.Some? ==> e.bag.value.kind == (if unit == 60 then K60 else if unit == 36 then K36 else if unit == 144 then K144 else K49))
      && (e.bag.None? ==> e.adds == [] && e.note == Some(NoteWrite("sponge_unknown", SpongeUnknownText(nameRaw, specRaw, qty))))
  {
  }

  /** The "other" tests do not stop the chain, so one name can add to several ids: a name that
      reaches the last branch and holds both keywords adds to `crumble` and then to `choco`. */
  lemma OtherTestsAccumulate(name: string, qty: int, spec: string, nameRaw: string, specRaw: string)
    requires name != [] && qty > 0 && !IsBread(name) && !Contains(name, "ラスク")
    requires !Contains(name, "クランブルナッツ200g") && !Contains(name, "エンジェルスポンジ")
    requires !IsEggS(name, spec) && !Contains(name, "フルーツ")
    requires Contains(name, "クランブル200g") && Contains(name, "チョコレート500g")
    ensures var e := ClassifyFields(name, qty, spec, nameRaw, specRaw);
      && e == Effect(OtherAdds(name, qty) + ChiffonAdds(name, qty), None, None)
      && |e.adds| >= 2 && e.adds[0] == Add("crumble", qty) && e.adds[1] == Add("choco", qty)
  {
    assert !Contains(name, "ミルフィーユデニッシュラスク") by {
      if Contains(name, "ミルフィーユデニッシュラスク") {
        ContainsMiddle("ミルフィーユデニッシュ", "ラスク", []);
        assert "ミルフィーユデニッシュ" + "ラスク" + [] == "ミルフィーユデニッシュラスク";
        ContainsTransitive(name, "ミルフィーユデニッシュラスク", "ラスク");
      }
    }
  }

  // ----- totals -----

  /** The sum of the quantities added to `id`. */
  function AddsTo(adds: seq<Add>, id: string): int {
    if adds == [] then 0
    else AddsTo(adds[..|adds| - 1], id) + (if adds[|adds| - 1].id == id then adds[|adds| - 1].qty else 0)
  }

  lemma {:induction false} ApplyAddsValue(m: map<string, int>, adds: seq<Add>, id: string)
    requires IdsIn(adds, m) && id in m
    ensures ApplyAdds(m, adds)[id] == m[id] + AddsTo(adds, id)
  {
    if adds != [] {
      ApplyAddsValue(m, adds[..|adds| - 1], id);
    }
  }

  lemma {:induction false} AddsToNonNegative(adds: seq<Add>, id: string)
    requires forall k :: 0 <= k < |adds| ==> adds[k].qty > 0
    ensures AddsTo(adds, id) >= 0
  {
    if adds != [] {
      AddsToNonNegative(adds[..|adds| - 1], id);
    }
  }

  /** Row `r`'s contribution to `id`. */
  function Contribution(row: Row, id: string): int {
    AddsTo(Classify(row).adds, id)
  }

  /** The sum of the contributions of all rows to `id`. */
  function TotalOf(rows: seq<Row>, id: string): int {
    if rows == [] then 0 else TotalOf(rows[..|rows| - 1], id) + Contribution(rows[|rows| - 1], id)
  }

  /** Each total is the sum of the rows' contributions. */
  lemma {:induction false} RunTotals(rows: seq<Row>, id: string)
    requires id in Items.CatalogIds()
    ensures Run(rows).orders[id] == TotalOf(rows, id)
  {
    if rows == [] {
      Items.IdSetIs();
    } else {
      var last := rows[|rows| - 1];
      RunTotals(rows[..|rows| - 1], id);
      ClassifyFieldsAdds(Norm(NameRaw(last)), ToNumberSafe(Lookup(last, QTY_KEY)), Norm(SpecRaw(last)), NameRaw(last), SpecRaw(last));
      ApplyAddsValue(Run(rows[..|rows| - 1]).orders, Classify(last).adds, id);
    }
  }

  lemma {:induction false} TotalOfNonNegative(rows: seq<Row>, id: string)
    ensures TotalOf(rows, id) >= 0
  {
    if rows != [] {
      var last := rows[|rows| - 1];
      TotalOfNonNegative(rows[..|rows| - 1], id);
      ClassifyFieldsAdds(Norm(NameRaw(last)), ToNumberSafe(Lookup(last, QTY_KEY)), Norm(SpecRaw(last)), NameRaw(last), SpecRaw(last));
      AddsToNonNegative(Classify(last).adds, id);
    }
  }

  lemma {:induction false} TotalOfAppend(a: seq<Row>, b: seq<Row>, id: string)
    ensures TotalOf(a + b, id) == TotalOf(a, id) + TotalOf(b, id)
  {
    if b == [] {
      assert a + b == a;
    } else {
      assert (a + b)[..|a + b| - 1] == a + b[..|b| - 1];
      TotalOfAppend(a, b[..|b| - 1], id);
    }
  }

  /** The totals do not depend on the order of the rows. */
  lemma {:induction false} TotalOfPermutation(a: seq<Row>, b: seq<Row>, id: string)
    requires multiset(a) == multiset(b)
    ensures TotalOf(a, id) == TotalOf(b, id)
  {
    if a == [] {
      assert |b| == |multiset(b)| == 0;
    } else {
      var x := a[|a| - 1];
      var a' := a[..|a| - 1];
      assert a == a' + [x];
      assert x in multiset(b);
      var k :| 0 <= k < |b| && b[k] == x;
      var b' := b[..k] + b[k + 1..];
      MultisetRemove(a, b, k);
      TotalOfPermutation(a', b', id);
      TotalOfRemove(b, k, id);
    }
  }

  /** Taking the last row from `a` and row `k` from `b`, when it is the same row, keeps the
      two multisets equal. */
  lemma MultisetRemove(a: seq<Row>, b: seq<Row>, k: nat)
    requires a != [] && k < |b| && b[k] == a[|a| - 1] && multiset(a) == multiset(b)
    ensures multiset(a[..|a| - 1]) == multiset(b[..k] + b[k + 1..])
  {
    var x := b[k];
    assert a == a[..|a| - 1] + [x];
    assert b == b[..k] + [x] + b[k + 1..];
    assert multiset(a) == multiset(a[..|a| - 1]) + multiset{x};
    assert multiset(b) == multiset(b[..k]) + multiset{x} + multiset(b[k + 1..]);
    assert multiset(b[..k] + b[k + 1..]) == multiset(b[..k]) + multiset(b[k + 1..]);
    assert multiset(a[..|a| - 1]) == multiset(a) - multiset{x};
    assert multiset(b[..k] + b[k + 1..]) == multiset(b) - multiset{x};
  }

  /** The total over `b` is the total without row `k` plus row `k`'s contribution. */
  lemma TotalOfRemove(b: seq<Row>, k: nat, id: string)
    requires k < |b|
    ensures TotalOf(b, id) == TotalOf(b[..k] + b[k + 1..], id) + Contribution(b[k], id)
  {
    var x := b[k];
    assert b == b[..k] + [x] + b[k + 1..];
    TotalOfAppend(b[..k], b[k + 1..], id);
    TotalOfAppend(b[..k] + [x], b[k + 1..], id);
    TotalOfAppend(b[..k], [x], id);
    assert [x][..0] == [];
  }

  /** The result has exactly the catalog ids as totals, each the non-negative sum of the rows'
      contributions. */
  lemma ResultTotals(rows: seq<Row>)
    ensures Finish(Run(rows)).totals.Keys == Items.IdSet()
    ensures forall id :: id in Items.CatalogIds() ==>
      Finish(Run(rows)).totals[id] == TotalOf(rows, id) >= 0
  {
    Items.IdSetIs();
    var t := Run(rows).orders;
    assert Finish(Run(rows)).totals == t;
    forall id | id in Items.CatalogIds() ensures t[id] == TotalOf(rows, id) >= 0 {
      RunTotals(rows, id);
      TotalOfNonNegative(rows, id);
    }
  }

  /** Reordering the rows changes no total. */
  lemma TotalsOrderIndependent(rows: seq<Row>, rows': seq<Row>)
    requires multiset(rows) == multiset(rows')
    ensures Finish(Run(rows)).totals == Finish(Run(rows')).totals
  {
    var t, t' := Run(rows).orders, Run(rows').orders;
    forall id | id in Items.CatalogIds() ensures t[id] == t'[id] {
      TotalAgrees(rows, rows', id);
    }
    SameMaps(t, t', Items.CatalogIds());
  }

  lemma TotalAgrees(rows: seq<Row>, rows': seq<Row>, id: string)
    requires multiset(rows) == multiset(rows') && id in Items.CatalogIds()
    ensures Run(rows).orders[id] == Run(rows').orders[id]
  {
    RunTotals(rows, id);
    RunTotals(rows', id);
    TotalOfPermutation(rows, rows', id);
  }

  lemma SameMaps(t: map<string, int>, t': map<string, int>, keys: set<string>)
    requires t.Keys == keys && t'.Keys == keys
    requires forall id :: id in keys ==> t[id] == t'[id]
    ensures t == t'
  {
  }

  // ----- the sponge list and the notes -----

  /** The quantities of the entries of kind `k`. */
  function BagSum(bags: seq<Bag>, k: SpongeKind): int {
    if bags == [] then 0
    else BagSum(bags[..|bags| - 1], k) + (if bags[|bags| - 1].kind == k then bags[|bags| - 1].qty else 0)
  }

  lemma {:induction false} BagSumAppend(a: seq<Bag>, b: seq<Bag>, k: SpongeKind)
    ensures BagSum(a + b, k) == BagSum(a, k) + BagSum(b, k)
  {
    if b == [] {
      assert a + b == a;
    } else {
      assert (a + b)[..|a + b| - 1] == a + b[..|b| - 1];
      BagSumAppend(a, b[..|b| - 1], k);
    }
  }

  /** The ids of the "other" and chiffon tests. */
  predicate PlainId(id: string) {
    id in {"crumble", "choco", "white_onion", "red_onion", "tea", "season", "plain"}
  }

  lemma {:induction false} AddsToElsewhere(adds: seq<Add>, id: string)
    requires forall k :: 0 <= k < |adds| ==> adds[k].id != id
    ensures AddsTo(adds, id) == 0
  {
    if adds != [] {
      AddsToElsewhere(adds[..|adds| - 1], id);
    }
  }

  lemma AddIfAvoids(c: bool, acc: seq<Add>, a: Add, id: string)
    requires forall k :: 0 <= k < |acc| ==> acc[k].id != id
    requires a.id != id
    ensures forall k :: 0 <= k < |AddIf(c, acc, a)| ==> AddIf(c, acc, a)[k].id != id
  {
  }

  lemma OtherAddsPlain(name: string, qty: int, id: string)
    requires !PlainId(id)
    ensures AddsTo(OtherAdds(name, qty) + ChiffonAdds(name, qty), id) == 0
  {
    var crumble := AddIf(Contains(name, "クランブル200g"), [], Add("crumble", qty));
    AddIfAvoids(Contains(name, "クランブル200g"), [], Add("crumble", qty), id);
    var choco := AddIf(Contains(name, "チョコレート500g"), crumble, Add("choco", qty));
    AddIfAvoids(Contains(name, "チョコレート500g"), crumble, Add("choco", qty), id);
    var white := AddIf(Contains(name, "白玉ねぎ"), choco, Add("white_onion", qty));
    AddIfAvoids(Contains(name, "白玉ねぎ"), choco, Add("white_onion", qty), id);
    AddIfAvoids(Contains(name, "赤玉ねぎ"), white, Add("red_onion", qty), id);
    var other := OtherAdds(name, qty);
    var chiffon := ChiffonAdds(name, qty);
    assert forall k :: 0 <= k < |chiffon| ==> chiffon[k].id != id;
    var adds := other + chiffon;
    forall k | 0 <= k < |adds| ensures adds[k].id != id {
      if k >= |other| { assert adds[k] == chiffon[k - |other|]; }
    }
    AddsToElsewhere(adds, id);
  }

  /** Only the sponge branch adds to a sponge sub-id, and it records an entry for each such
      addition: a row's contribution to the sub-id of kind `k` is its entry's quantity. */
  lemma NutsOnwardSponge(name: string, qty: int, spec: string, nameRaw: string, specRaw: string, k: SpongeKind)
    ensures var e := NutsOnward(name, qty, spec, nameRaw, specRaw);
      AddsTo(e.adds, KindId(k)) == BagSum(BagsOf(e.bag), k)
  {
    if !Contains(name, "クランブルナッツ200g") && !Contains(name, "エンジェルスポンジ")
      && !IsEggS(name, spec) && !Contains(name, "フルーツ")
    {
      OtherAddsPlain(name, qty, KindId(k));
    }
  }

  lemma RuskOnwardSponge(name: string, qty: int, spec: string, nameRaw: string, specRaw: string, k: SpongeKind)
    ensures var e := RuskOnward(name, qty, spec, nameRaw, specRaw);
      AddsTo(e.adds, KindId(k)) == BagSum(BagsOf(e.bag), k)
  {
    if !Contains(name, "ラスク") {
      NutsOnwardSponge(name, qty, spec, nameRaw, specRaw, k);
    }
  }

  lemma ClassifyFieldsSponge(name: string, qty: int, spec: string, nameRaw: string, specRaw: string, k: SpongeKind)
    ensures var e := ClassifyFields(name, qty, spec, nameRaw, specRaw);
      AddsTo(e.adds, KindId(k)) == BagSum(BagsOf(e.bag), k)
  {
    if name != [] && qty > 0 && !IsBread(name) && !Contains(name, "ミルフィーユデニッシュラスク") {
      RuskOnwardSponge(name, qty, spec, nameRaw, specRaw, k);
    }
  }

  lemma EffectSponge(row: Row, k: SpongeKind)
    ensures AddsTo(Classify(row).adds, KindId(k)) == BagSum(BagsOf(Classify(row).bag), k)
  {
    ClassifyFieldsSponge(Norm(NameRaw(row)), ToNumberSafe(Lookup(row, QTY_KEY)), Norm(SpecRaw(row)), NameRaw(row), SpecRaw(row), k);
  }


  /** Each sponge sub-id total equals the sum of the recorded entries of its kind. */
  lemma {:induction false} SpongeTotalsMatchEntries(rows: seq<Row>, k: SpongeKind)
    ensures Run(rows).orders[KindId(k)] == BagSum(Run(rows).bags, k)
  {
    if rows == [] {
      Items.IdSetIs();
    } else {
      var last := rows[|rows| - 1];
      var prefix := rows[..|rows| - 1];
      var prev, e := Run(prefix), Classify(last);
      assert KindId(k) in Items.CatalogIds();
      SpongeTotalsMatchEntries(prefix, k);
      RunLast(rows);
      ApplyAddsValue(prev.orders, e.adds, KindId(k));
      EffectSponge(last, k);
      BagSumAppend(prev.bags, BagsOf(e.bag), k);
    }
  }

  /** A row writes at most the unknown-sponge or the unknown-fruit note. */
  lemma NoteKeyOf(name: string, qty: int, spec: string, nameRaw: string, specRaw: string)
    ensures var w := ClassifyFields(name, qty, spec, nameRaw, specRaw).note;
      w.Some? ==> w.value.key == "sponge_unknown" || w.value.key == "fruit_unknown"
  {
  }

  /** The loop writes only the unknown-sponge and unknown-fruit notes. */
  lemma {:induction false} LoopNoteKeys(rows: seq<Row>)
    ensures Run(rows).notes.Keys <= {"sponge_unknown", "fruit_unknown"}
  {
    if rows != [] {
      var last := rows[|rows| - 1];
      LoopNoteKeys(rows[..|rows| - 1]);
      RunLast(rows);
      NoteKeyOf(Norm(NameRaw(last)), ToNumberSafe(Lookup(last, QTY_KEY)), Norm(SpecRaw(last)), NameRaw(last), SpecRaw(last));
    }
  }

  /** The parts laid end to end, first to last. */
  function Concat(parts: seq<seq<Bag>>): seq<Bag> {
    if parts == [] then [] else parts[0] + Concat(parts[1..])
  }

  lemma {:induction false} ConcatLast(parts: seq<seq<Bag>>)
    requires parts != []
    ensures Concat(parts) == Concat(parts[..|parts| - 1]) + parts[|parts| - 1]
  {
    var n := |parts|;
    if n == 1 {
      assert parts[1..] == [] && parts[..0] == [];
    } else {
      var init := parts[..n - 1];
      ConcatLast(parts[1..]);
      assert parts[1..][..n - 2] == init[1..];
      assert parts[1..][n - 2] == parts[n - 1];
      assert init[0] == parts[0];
    }
  }

  /** The sponge entry one row records, if any. */
  function RowBag(row: Row): seq<Bag> {
    BagsOf(Classify(row).bag)
  }

  /** Every row's sponge entry, in row order: the reference for the sponge list. */
  function RowBags(rows: seq<Row>): seq<Bag> {
    Concat(seq(|rows|, i requires 0 <= i < |rows| => RowBag(rows[i])))
  }

  /** The last row's step appends that row's sponge entry. */
  lemma RunBagsLast(rows: seq<Row>)
    requires rows != []
    ensures Run(rows).bags == Run(rows[..|rows| - 1]).bags + RowBag(rows[|rows| - 1])
  {
    RunLast(rows);
  }

  /** The loop collects the sponge entries of the rows in row order. */
  lemma {:induction false} RunBags(rows: seq<Row>)
    ensures Run(rows).bags == RowBags(rows)
  {
    var n := |rows|;
    var parts := seq(n, i requires 0 <= i < n => RowBag(rows[i]));
    if n > 0 {
      var init := rows[..n - 1];
      assert parts[..n - 1] == seq(n - 1, i requires 0 <= i < n - 1 => RowBag(init[i]));
      RunBags(init);
      RunBagsLast(rows);
      ConcatLast(parts);
    }
  }

  /** The note `Finish` adds, for any state whose notes hold no `sponge` key. */
  lemma FinishSpongeNote(s: Engine)
    requires "sponge" !in s.notes
    ensures var out := Finish(s);
      && ("sponge" in out.notes <==> s.bags != [])
      && (s.bags != [] ==> out.notes["sponge"] == "内訳(数量): " + Join(BagTexts(s.bags), " / "))
      && forall j :: 0 <= j < |s.bags| ==>
        Contains(out.notes["sponge"], KindLabel(s.bags[j].kind) + "×" + IntToString(s.bags[j].qty))
  {
    var bags := s.bags;
    forall j | 0 <= j < |bags|
      ensures Contains(SpongeNote(bags), KindLabel(bags[j].kind) + "×" + IntToString(bags[j].qty))
    {
      var joined := Join(BagTexts(bags), " / ");
      JoinContainsPart(BagTexts(bags), " / ", j);
      ContainsMiddle("内訳(数量): ", joined, []);
      assert "内訳(数量): " + joined + [] == SpongeNote(bags);
      ContainsTransitive(SpongeNote(bags), joined, BagTexts(bags)[j]);
    }
  }

  /** `notes.sponge` is present exactly when some sponge entry was recorded; it is then
      `内訳(数量): ` followed by the entries as `kind×qty` joined by ` / `, so it lists every
      entry; and the entries are those of the rows, in row order. */
  lemma SpongeNoteRule(rows: seq<Row>)
    ensures var out := Finish(Run(rows));
      && Run(rows).bags == RowBags(rows)
      && ("sponge" in out.notes <==> Run(rows).bags != [])
      && (Run(rows).bags != [] ==> out.notes["sponge"] == "内訳(数量): " + Join(BagTexts(Run(rows).bags), " / "))
      && forall j :: 0 <= j < |Run(rows).bags| ==>
        Contains(out.notes["sponge"], KindLabel(Run(rows).bags[j].kind) + "×" + IntToString(Run(rows).bags[j].qty))
  {
    LoopNoteKeys(rows);
    RunBags(rows);
    FinishSpongeNote(Run(rows));
  }
}
