# Order support: CSV to order totals, print sheet and stored state

This is a model of the order-support web app for a shop's weekly stock and ordering round. The app does four things:

- It reads a supplier's shipment-plan CSV.
- It splits the CSV into header-keyed records and folds those records into per-item order totals for a fixed catalog of 24 items.
- It lays those totals and the entered stock counts out on a printable sheet.
- It keeps the whole state in the browser between visits.

The model is written in Dafny, one module per source file:

| module | source | what it holds |
|---|---|---|
| `Wrappers` | — | `Option` |
| `Text` | — | the JavaScript string operations the app relies on: `trim`, `trimStart`, `trimEnd`, `includes`, `split`, `join`, `String(n)`, and single-character `replace` |
| `Items` | `src/domain/items.ts` | the catalog `ITEMS` and the zero map |
| `Mapping` | `src/domain/mapping.ts` | the static `MAPPING` rules and `normalizeName` |
| `ParseCsv` | `src/features/csv/parseCsv.ts` | the quote-aware line splitter, header search, line preparation and record building |
| `ToOrders` | `src/features/csv/toOrders.ts` | the row classifier and the aggregation loop |
| `OrdersFacts` | `src/features/csv/toOrders.ts` | the properties of the classifier and of the totals |
| `Js` | — | JavaScript numbers (finite, NaN, ±Infinity) and JSON values |
| `PrintHtml` | `src/features/export/buildPrintHtml.ts` | escaping, the display normalisers, cell values and the sheet layout |
| `Export` | `src/routes/Export.tsx` | the note map and the print payload |
| `AppStore` | `src/state/appStore.ts` | number-map coercion, restoring saved state, and the actions |

## How the model is shaped

The row loop of `buildOrdersFromCsv` is specified by a pure function, `ToOrders.Classify`, which gives the effect of one row. An effect is made of:

- the additions to the totals, in order;
- at most one note write;
- at most one sponge entry.

`ToOrders.Run` folds the effects over the rows. The imperative method `ToOrders.BuildOrdersFromCsv` keeps the source's `for` loop. The loop does `+=` on the totals map, overwrites notes and appends to the sponge list. The method is proved equal to `Finish(Run(rows))`. Every branch of the loop body is its own method, proved against the matching branch of `Classify`.

Methods are also used for:

- `splitCsvLine`: a character loop with `cur`, `inQ` and `out`;
- `findHeaderIndex`;
- the record-building loops;
- `buildZeroMap`;
- `buildNoteMap`;
- `safeNumberMap`.

Each of these is proved against a function.

Everything else is a function, as in the source. `loadState` and the `actions` are transition functions on an `AppState` datatype.

JavaScript numbers are `Js.Num`: a whole number, NaN, or an infinity. Where the app can see a non-finite value (stored state, the print payload), the model keeps that distinction. The CSV quantities are whole numbers, because `toNumberSafe` only ever reads a run of digits. The model reads such a run as the exact integer it spells; the app's `Number` rounds a run beyond 2^53 and makes one of more than 308 digits Infinity, which `toNumberSafe` then turns into 0 (see "Left out").

## Where the code does something other than a reader might expect

The model follows the code in each case.

- A reader might expect rusk rows to go to the coffee flavour exactly when the name contains 珈琲 or コーヒ. In the code, the branch for なぎさ+ラスク (`toOrders.ts:90-93`) runs before the catch-all flavour test. So a なぎさ rusk name that also contains 珈琲 goes to plain unless it also contains 伊勢. `OrdersFacts.RuskRowsAreConsumed` states the exact condition.
- A reader might expect a diagnostic note when a ミルフィーユデニッシュラスク row's spec has neither 5枚 nor 10枚. The code writes nothing, and `OrdersFacts.DanishRuskRow` states that.
- The notes the aggregator returns under `__notes` never reach the stored state. `setOrders` passes the whole result through `safeNumberMap`, and `Number` of an object is NaN, so `__notes` is stored as the number 0 (`AppStore.NotesDoNotSurvive`). The printed notes come from the static `MAPPING` table instead (`Export.BuildNoteMap`).
- The printer's fallback rusk target label is `換算×48（PDF表示）`, with no colon. The catalog's own label is `換算:×48（PDF表示）`. The fallback is only used when a rusk entry is missing from the payload.

## Model

| member | source | states |
|---|---|---|
| Items.ZeroMap | src/domain/items.ts:56-60 | the zero map's keys are exactly the catalog ids |
| Items.BuildZeroMap | src/domain/items.ts:56-60 | the loop over `ITEMS` yields a map with exactly the catalog ids as keys, every value 0 |
| Items.IdsDistinct | src/domain/items.ts:11-54 | the catalog ids are pairwise distinct |
| Items.IdSetIs | src/domain/items.ts:11-54 | the set of catalog ids is exactly the 24 listed ids |
| Text.TrimStartSpec | src/features/csv/parseCsv.ts:78 | `trimStart` keeps a suffix, removes only whitespace, and stops at a non-whitespace character |
| Text.TrimEndSpec | src/features/csv/parseCsv.ts:78 | `trimEnd` keeps a prefix, removes only whitespace, and stops at a non-whitespace character |
| Text.TrimSpec | src/features/csv/parseCsv.ts:29 | a trimmed string neither starts nor ends with whitespace and occurs inside the original |
| Text.TrimClean | src/features/csv/parseCsv.ts:29 | a string with no whitespace at either end is its own trim |
| Text.TrimIdempotent | src/features/csv/parseCsv.ts:29 | trimming twice is trimming once |
| Text.NotContainsWithoutHead | src/features/csv/toOrders.ts:69-72 | a string whose first character is absent from `s` does not occur in `s` |
| Text.ContainsTransitive | src/features/csv/toOrders.ts:72 | containment is transitive |
| Text.ContainsMiddle | src/features/csv/toOrders.ts:69-72 | a string occurs in any string that has it as a middle part |
| Text.TrimNoSpace | src/domain/mapping.ts:51-52 | a string without whitespace is its own trim |
| Text.DigitChar | src/features/csv/toOrders.ts:135 | the digit character for `d < 10` is a digit whose value is `d` |
| Text.LeadingDigits | src/features/csv/toOrders.ts:8 | the leading digit run is a prefix of digits, and the next character, if any, is not a digit |
| Text.LeadingDigitsOf | src/features/csv/toOrders.ts:8 | a digit string followed by a non-digit is exactly the leading digit run |
| Text.NatToString | src/features/csv/toOrders.ts:135 | `String(n)` of a natural number is a non-empty digit string with value `n` and no leading zero |
| Text.IntToString | src/features/csv/toOrders.ts:135 | `String(i)` starts with `-` exactly when `i < 0`, followed by the digits of the absolute value |
| Text.ReplaceChar | src/domain/mapping.ts:54-55 | a global one-character `replace` changes exactly the occurrences of that character and keeps the length |
| Text.JoinContainsPart | src/features/csv/toOrders.ts:182 | every part of a `join` occurs in the joined string |
| Text.Split | src/features/csv/parseCsv.ts:77 | `split` gives at least one piece, and no piece holds the separator |
| Text.JoinSplit | src/features/csv/parseCsv.ts:77 | joining the pieces of a split with the separator gives back the string |
| Text.SplitJoin | src/features/csv/parseCsv.ts:77 | splitting a join of separator-free pieces gives back the pieces |
| Text.SplitNoSeparator | src/features/csv/parseCsv.ts:77 | a string without the separator splits into itself alone |
| ParseCsv.PushFront | src/features/csv/parseCsv.ts:26 | adding a character to the field being built prefixes the first remaining field and nothing else |
| ParseCsv.Scan | src/features/csv/parseCsv.ts:10-28 | the splitter always produces at least one field |
| ParseCsv.TrimAll | src/features/csv/parseCsv.ts:29 | every field is replaced by its trim, and the count is kept |
| ParseCsv.SplitCsvLine | src/features/csv/parseCsv.ts:6-30 | the character loop yields the quote-aware fields of `LineFields`: at least one field, each one trimmed |
| ParseCsv.ScanNoQuotes | src/features/csv/parseCsv.ts:21-25 | on a line without quotes the splitter is a plain split at commas |
| ParseCsv.ScanFieldCount | src/features/csv/parseCsv.ts:10-28 | the field count is one more than the number of commas outside quotes |
| ParseCsv.LineFieldCount | src/features/csv/parseCsv.ts:6-30 | the trimmed fields of a line are one more than its unquoted commas |
| ParseCsv.ScanQuotedBody | src/features/csv/parseCsv.ts:12-19 | inside quotes `""` reads as one quote, and a lone quote leaves quoted mode and is dropped |
| ParseCsv.ScanQuoted | src/features/csv/parseCsv.ts:12-19 | a quoted field whose inner quotes are doubled reads back as the field, before whatever follows |
| ParseCsv.ScanEncodeLine | src/features/csv/parseCsv.ts:10-28 | splitting a line of quoted, comma-joined fields gives back exactly those fields |
| ParseCsv.LineFieldsEncodeLine | src/features/csv/parseCsv.ts:6-30 | the splitter inverts quoting for trimmed fields, including fields that hold commas and quotes |
| ParseCsv.CollapseCrLf | src/features/csv/parseCsv.ts:75 | replacing CRLF by LF never lengthens the text |
| ParseCsv.CollapseCrLfBase | src/features/csv/parseCsv.ts:75 | a text of at most one character is kept; the text CR LF becomes LF |
| ParseCsv.CollapseCrLfAppend | src/features/csv/parseCsv.ts:75 | the replacement works piece by piece: on two texts whose boundary does not cut a CR LF pair, it gives the concatenation of the two results; with the base cases this fixes the result of every text |
| ParseCsv.NormalizeLineEnds | src/features/csv/parseCsv.ts:75-76 | after both line-ending replacements no CR is left and the text is no longer; a lone CR becomes LF, any other single character is kept, and CR LF becomes LF |
| ParseCsv.NormalizeLineEndsAppend | src/features/csv/parseCsv.ts:75-76 | both replacements work piece by piece on two texts whose boundary does not cut a CR LF pair |
| ParseCsv.TrimEndAll | src/features/csv/parseCsv.ts:78 | each line has its trailing whitespace removed, and the count is kept |
| ParseCsv.DropEmpty | src/features/csv/parseCsv.ts:79 | the filter keeps only non-empty lines, each taken from the input; a single line is kept exactly when it is non-empty |
| ParseCsv.DropEmptyAppend | src/features/csv/parseCsv.ts:79 | the filter distributes over concatenation, so with the one-line case it keeps exactly the non-empty lines, in their order |
| ParseCsv.PrepareLines | src/features/csv/parseCsv.ts:74-79 | every prepared line is non-empty, holds no CR or LF, and does not end in whitespace |
| ParseCsv.PrepareLinesEmpty | src/features/csv/parseCsv.ts:74-81 | an empty text gives no lines, hence no records |
| ParseCsv.PrepareLinesJoinLf | src/features/csv/parseCsv.ts:74-79 | clean lines joined with LF are recovered exactly |
| ParseCsv.PrepareLinesJoinCrLf | src/features/csv/parseCsv.ts:74-79 | clean lines joined with CRLF are recovered exactly |
| ParseCsv.PrepareLinesJoinLfAny | src/features/csv/parseCsv.ts:74-79 | any lines without CR or LF, joined with LF, come back trimmed at the end, with the empty ones dropped and the order kept |
| ParseCsv.NormalizeJoinCr | src/features/csv/parseCsv.ts:75-76 | lines without breaks joined with lone CRs normalise to the same lines joined with LF |
| ParseCsv.PrepareLinesJoinCr | src/features/csv/parseCsv.ts:74-79 | lines joined with lone CRs are prepared like LF-joined ones: trimmed at the end, empty ones dropped, order kept |
| ParseCsv.NormalizeJoinMixed | src/features/csv/parseCsv.ts:75-76 | lines without breaks joined with any mix of LF, CR and CR LF normalise to the same lines joined with LF, unless a lone CR, an empty line and an LF ending sit together (that CR and LF are one CR LF pair in the text) |
| ParseCsv.HiddenPairExample | src/features/csv/parseCsv.ts:75-76 | the excluded case is real: `a`, CR, an empty line, LF, `b` is the text `a` CR LF `b`, which normalises to `a` LF `b`, so the empty line does not appear |
| ParseCsv.Repair | src/features/csv/parseCsv.ts:75 | merging each lone CR, empty line, LF ending into one CR LF ending keeps the first line and one ending fewer than lines, and the first ending is the original one or CR LF |
| ParseCsv.RepairLines | src/features/csv/parseCsv.ts:75-76 | the merged lines still hold no breaks, every ending is still LF, CR or CR LF, and no such triple is left |
| ParseCsv.RepairJoin | src/features/csv/parseCsv.ts:75 | the merged lines and endings spell the same text |
| ParseCsv.RepairKept | src/features/csv/parseCsv.ts:78-79 | the merge removes only empty lines, so the lines kept after trimming and filtering are the same |
| ParseCsv.PrepareLinesJoinMixed | src/features/csv/parseCsv.ts:74-79 | every file whose lines hold no breaks, joined by any mix of LF, CR and CR LF, is prepared into its lines, trimmed at the end, empty ones dropped, order kept |
| ParseCsv.PrepareLinesCrBlankExample | src/features/csv/parseCsv.ts:74-79 | the text `a`, CR, CR, `b`, LF, `c` is prepared into `a`, `b`, `c` |
| ParseCsv.PrepareLinesExample | src/features/csv/parseCsv.ts:74-79 | the text `a`, LF, LF, ` b `, CR LF, `c`, CR, `d` is prepared into `a`, ` b`, `c`, `d` |
| ParseCsv.HeaderChoiceUnique | src/features/csv/parseCsv.ts:62-68 | the header position is uniquely determined: the first line holding both 商品名 and 発注数量, else 0 |
| ParseCsv.FindHeaderIndex | src/features/csv/parseCsv.ts:62-68 | the index loop returns the first line holding both 商品名 and 発注数量, or 0 when none does |
| ParseCsv.RowUpToSpec | src/features/csv/parseCsv.ts:93-95 | after writing the first `n` header fields, the keys are those fields, and each holds the column of its last occurrence, or "" past the line's end |
| ParseCsv.RowOfSpec | src/features/csv/parseCsv.ts:92-95 | a record has exactly the header fields as keys; a later duplicate header wins; missing columns are ""; extra columns are ignored |
| ParseCsv.BuildRow | src/features/csv/parseCsv.ts:92-95 | the inner loop builds `RowOf(header, cols)` |
| ParseCsv.DataRows | src/features/csv/parseCsv.ts:90-97 | one record per data line, in order, each built from that line's fields |
| ParseCsv.RowsFromLines | src/features/csv/parseCsv.ts:83-97 | the records are those of the lines after the chosen header line, keyed by the header's fields |
| ParseCsv.ParseRows | src/features/csv/parseCsv.ts:74-99 | no records when no line survives preparation; otherwise one record per prepared line after the header |
| ParseCsv.RowsAfterUnique | src/features/csv/parseCsv.ts:83-97 | the parse result is a function of the prepared lines |
| ToOrders.ToNumberSafe | src/features/csv/toOrders.ts:5-12 | a missing field, or one with no digit, reads as 0 |
| ToOrders.DropNormChars | src/features/csv/toOrders.ts:21 | removing spaces, ideographic spaces and tabs keeps only other characters of the input; a single such character is removed and any other is kept |
| ToOrders.DropNormCharsAppend | src/features/csv/toOrders.ts:21 | the global replace works character by character: it distributes over concatenation |
| ToOrders.DropNormCharsKeeps | src/features/csv/toOrders.ts:21 | a string without spaces, ideographic spaces or tabs is unchanged |
| ToOrders.Norm | src/features/csv/toOrders.ts:18-23 | the normalised text holds only characters of the input, and no space, ideographic space or tab; it neither starts nor ends with whitespace, and trimming it again changes nothing |
| ToOrders.RuskToPacks | src/features/csv/toOrders.ts:33-38 | 0 for q ≤ 0; q/48 when q ≥ 48 is a multiple of 48; otherwise q; the result is positive and at most q for positive q |
| ToOrders.PickSpongeUnit | src/features/csv/toOrders.ts:40-51 | the `N個` unit from the name wins; else the `N/個` or `N／個` unit from the spec; else 0 |
| ToOrders.ClassifyFieldsAdds | src/features/csv/toOrders.ts:78-176 | every id a row adds to is a catalog id, and each addition is positive |
| ToOrders.Start | src/features/csv/toOrders.ts:54-58 | the loop starts from totals keyed by exactly the catalog ids |
| ToOrders.Run | src/features/csv/toOrders.ts:60-178 | the totals stay keyed by exactly the catalog ids through the whole loop |
| ToOrders.BagTexts | src/features/csv/toOrders.ts:182 | every sponge entry becomes its `kind×qty` text, in order |
| ToOrders.RunLast | src/features/csv/toOrders.ts:60-178 | the fold after the last row is one more step on the prefix |
| ToOrders.RunPrefix | src/features/csv/toOrders.ts:60-178 | the state after `r+1` rows is the state after `r` rows stepped with row `r` |
| ToOrders.Bump | src/features/csv/toOrders.ts:79 | `orders[id] += qty` keeps the key set |
| ToOrders.ApplyAdds | src/features/csv/toOrders.ts:160-163 | a sequence of additions keeps the key set |
| ToOrders.Credit | src/features/csv/toOrders.ts:79 | one addition to a present id |
| ToOrders.SpongeRow | src/features/csv/toOrders.ts:114-136 | the sponge branch's unit tests, in order 60, 36, 144, then 49 or 直送, update totals, notes and entry list as its effect says |
| ToOrders.FruitRow | src/features/csv/toOrders.ts:146-156 | peach, then strawberry, else the `fruit_unknown` note |
| ToOrders.OtherPart | src/features/csv/toOrders.ts:160-163 | the four tests that do not stop the chain each add in turn |
| ToOrders.ChiffonPart | src/features/csv/toOrders.ts:166-177 | tea, then limited-season, then plain chiffon |
| ToOrders.OtherAndChiffon | src/features/csv/toOrders.ts:160-177 | the "other" tests followed by the chiffon tests |
| ToOrders.NutsOnwardRow | src/features/csv/toOrders.ts:104-177 | the chain from the nuts test on, as its specification gives it |
| ToOrders.RuskOnwardRow | src/features/csv/toOrders.ts:86-177 | the chain from the rusk tests on, as its specification gives it |
| ToOrders.FieldsRow | src/features/csv/toOrders.ts:66-177 | the whole ordered chain of tests on normalised name, quantity and spec |
| ToOrders.ProcessRow | src/features/csv/toOrders.ts:61-177 | one loop iteration, including the field reads, has the effect of `Classify(row)` |
| ToOrders.ProcessRows | src/features/csv/toOrders.ts:54-178 | the loop's totals, notes and sponge entries are the fold of `Classify` over the rows |
| ToOrders.BuildOrdersFromCsv | src/features/csv/toOrders.ts:53-188 | the result is the loop's totals, with the `sponge` breakdown note added when there is an entry |
| OrdersFacts.FirstSignedRunSkip | src/features/csv/toOrders.ts:8 | characters without digits before the match are skipped, unless a `-` directly precedes the digits |
| OrdersFacts.FirstSignedRunPositive | src/features/csv/toOrders.ts:8 | the first digit run, not preceded by `-`, is read whole |
| OrdersFacts.FirstSignedRunNegative | src/features/csv/toOrders.ts:8 | a `-` directly before the first digit run makes it negative |
| OrdersFacts.ToNumberSafeReads | src/features/csv/toOrders.ts:5-12 | the value is the first `-?\d+` run of the trimmed field |
| OrdersFacts.ToNumberSafeNumeral | src/features/csv/toOrders.ts:5-12 | `toNumberSafe(String(n)) == n` for every integer |
| OrdersFacts.RuskToPacksExamples | src/features/csv/toOrders.ts:33-38 | 96→2, 48→1, 47→47, 100→100, 0→0 |
| OrdersFacts.NameUnitSkipRuns | src/features/csv/toOrders.ts:42 | a prefix holding no `N個` and not ending in a digit is passed over: digit runs not followed by 個 do not stop the search |
| OrdersFacts.NoDigitNameSkips | src/features/csv/toOrders.ts:42 | a digit-free prefix is such a prefix |
| OrdersFacts.NameUnitReads | src/features/csv/toOrders.ts:42-43 | the first digit run in the name that is followed by 個 is the unit, whatever digit runs come before it |
| OrdersFacts.UnitTailAppend | src/features/csv/toOrders.ts:47 | whether `(?:\.\d+)?[/／]個` matches at the start of a text ending in a character other than a digit, `.`, `/` or `／` does not depend on what follows |
| OrdersFacts.SpecUnitSkipRuns | src/features/csv/toOrders.ts:47 | a prefix with no spec unit that ends in such a character is passed over |
| OrdersFacts.SpecSkipsAppend | src/features/csv/toOrders.ts:47 | a prefix with no spec unit that is digit-free or ends in such a character leaves the result to the rest |
| OrdersFacts.NoDigitSpecSkips | src/features/csv/toOrders.ts:47 | a digit-free prefix is such a prefix |
| OrdersFacts.SpecUnitReads | src/features/csv/toOrders.ts:47-48 | after such a prefix, the spec's digits before an optional fraction and `/個` or `／個` are the unit |
| OrdersFacts.NameUnitAfterOtherRun | src/features/csv/toOrders.ts:42-43 | `スポンジ2段60個` has unit 60 |
| OrdersFacts.SpecUnitAfterOtherRun | src/features/csv/toOrders.ts:47-48 | `10枚60.00／個` has unit 60 |
| OrdersFacts.SpecMatchRunsOn | src/features/csv/toOrders.ts:47 | a match can start before a `.` and run on past it: `60.5/個` has unit 60, which is why a skipped spec prefix must end on a boundary |
| OrdersFacts.NameUnitFirst | src/features/csv/toOrders.ts:40-51 | a unit in the name decides, wherever it stands after other digit runs and whatever the spec says |
| OrdersFacts.SkippedRowChangesNothing | src/features/csv/toOrders.ts:66 | a row with an empty normalised name or a quantity ≤ 0 changes no total, note or entry |
| OrdersFacts.BreadIsNeverCounted | src/features/csv/toOrders.ts:69-75 | names with 山パン, ちぎり, or デニッシュ without デニッシュラスク have no effect |
| OrdersFacts.MilleFeuilleIsNotBread | src/features/csv/toOrders.ts:69-78 | a ミルフィーユデニッシュラスク name always passes the bread test's デニッシュラスク exception |
| OrdersFacts.DanishRuskRow | src/features/csv/toOrders.ts:78-82 | 5枚 in the spec goes to `danish_rusk_5`, else 10枚 to `danish_rusk_10`, else nothing and no note |
| OrdersFacts.RuskRowsAreConsumed | src/features/csv/toOrders.ts:86-101 | every other ラスク name adds its packs to exactly one rusk id: coffee when 珈琲 or コーヒ occurs and either 伊勢 occurs or なぎさ does not |
| OrdersFacts.EggBeforeFruit | src/features/csv/toOrders.ts:140-157 | a たまご S name that also mentions フルーツ counts as egg |
| OrdersFacts.SpongeRowRule | src/features/csv/toOrders.ts:111-137 | a known unit (60, 36, 144, 49 or 直送) adds qty to exactly its sub-id and records one entry; otherwise only `sponge_unknown` is written |
| OrdersFacts.OtherTestsAccumulate | src/features/csv/toOrders.ts:66-163 | a name that passes every earlier test and holds both クランブル200g and チョコレート500g reaches the last branch and adds its quantity to `crumble` and then to `choco`, because these tests do not stop the chain |
| OrdersFacts.RunTotals | src/features/csv/toOrders.ts:60-178 | each total is the sum of the rows' contributions to it |
| OrdersFacts.TotalOfNonNegative | src/features/csv/toOrders.ts:66 | every sum of contributions is ≥ 0 |
| OrdersFacts.TotalOfAppend | src/features/csv/toOrders.ts:60-178 | sums of contributions add up over concatenated row lists |
| OrdersFacts.TotalOfPermutation | src/features/csv/toOrders.ts:60-178 | rows with the same multiset give the same sums |
| OrdersFacts.ResultTotals | src/features/csv/toOrders.ts:53-188 | the totals have exactly the catalog ids as keys, and each is its rows' sum, ≥ 0 |
| OrdersFacts.TotalsOrderIndependent | src/features/csv/toOrders.ts:53-188 | permuting the rows leaves every total unchanged |
| OrdersFacts.SpongeTotalsMatchEntries | src/features/csv/toOrders.ts:111-133 | each sponge sub-id total equals the sum of the quantities of its entries in the breakdown list |
| OrdersFacts.NoteKeyOf | src/features/csv/toOrders.ts:135-155 | a row writes only `sponge_unknown` or `fruit_unknown` |
| OrdersFacts.LoopNoteKeys | src/features/csv/toOrders.ts:60-178 | the loop's notes hold no other keys |
| OrdersFacts.RunBags | src/features/csv/toOrders.ts:60-178 | the loop's sponge list is the rows' entries, in row order |
| OrdersFacts.FinishSpongeNote | src/features/csv/toOrders.ts:181-184 | from any state without a `sponge` note, the result has one exactly when there are entries, and it is `内訳(数量): ` and the entries as `kind×qty` joined by ` / ` |
| OrdersFacts.SpongeNoteRule | src/features/csv/toOrders.ts:181-184 | the `sponge` note is present exactly when there is an entry; it is then `内訳(数量): ` and the entries as `kind×qty` joined by ` / `, in row order, so it mentions every entry |
| Mapping.MappingTargetsCatalog | src/domain/mapping.ts:8-47 | every rule targets a catalog id |
| Mapping.DanishRuskRulesShareName | src/domain/mapping.ts:18-19 | the two Danish rusk rules share the single name ミルフィーユデニッシュラスク |
| Mapping.RemoveSpaces | src/domain/mapping.ts:52 | removing `\s+` leaves no whitespace and never lengthens the string |
| Mapping.FullWidthParens | src/domain/mapping.ts:53 | ASCII parentheses become full-width ones, and nothing else changes |
| Mapping.RemoveSpacesTrim | src/domain/mapping.ts:51-52 | trimming before removing whitespace makes no difference |
| Mapping.RemoveSpacesAppend | src/domain/mapping.ts:52 | whitespace removal distributes over concatenation |
| Mapping.NormalizeNameIsOnePass | src/domain/mapping.ts:49-56 | `normalizeName` keeps every non-whitespace character in order, rewriting `( ) ＋ ：` as `（ ） + :` |
| Mapping.NormalizeCharsClean | src/domain/mapping.ts:52-55 | the result holds no whitespace and none of `( ) ＋ ：` |
| Mapping.NormalizeNameNoSpace | src/domain/mapping.ts:51-52 | `normalizeName` output holds no whitespace |
| Mapping.NormalizeNameIdempotent | src/domain/mapping.ts:49-56 | normalising twice is normalising once |
| PrintHtml.EscChar | src/features/export/buildPrintHtml.ts:6 | a special character becomes an entity from `&` to `;`; every other character is kept |
| PrintHtml.UnescapeEsc | src/features/export/buildPrintHtml.ts:5-7 | reading the five entities back recovers the escaped string exactly |
| PrintHtml.EscSafe | src/features/export/buildPrintHtml.ts:5-7 | the output holds no `< > " '`, and every `&` in it starts one of the five entities |
| PrintHtml.EscPlain | src/features/export/buildPrintHtml.ts:6 | a string without special characters is unchanged |
| PrintHtml.ById | src/features/export/buildPrintHtml.ts:284 | a lookup finds an entry with that id, or nothing only when no entry has that id |
| PrintHtml.ByIdLast | src/features/export/buildPrintHtml.ts:284 | the entry found is one at an index after which no entry has that id: the last one wins |
| PrintHtml.ByIdDistinct | src/features/export/buildPrintHtml.ts:284 | with distinct ids, a lookup finds exactly that entry |
| PrintHtml.CellWarnRule | src/features/export/buildPrintHtml.ts:14-26 | a cell warns exactly when it is not blank, does not hide its order, and the order shown exceeds the stock shown; a missing or non-finite number shows as 0 |
| PrintHtml.DanishHalf | src/features/export/buildPrintHtml.ts:51-61 | each Danish rusk half shows its item's stock and order, 0 for a missing item or a non-finite number, and warns exactly when the order exceeds the stock |
| PrintHtml.NormalizeRuskPacks | src/features/export/buildPrintHtml.ts:117-126 | 0 for o ≤ 0; o/48 for a multiple of 48 that is at least 48; otherwise o |
| PrintHtml.NormalizeRuskPacksIsRuskToPacks | src/features/export/buildPrintHtml.ts:117-126 | the printer's rule agrees with the importer's `ruskToPacks` on every integer |
| PrintHtml.RuskHalfRule | src/features/export/buildPrintHtml.ts:137-152 | the rusk half shows 48× the stock, shows the packs ordered, and warns on the raw stock, i.e. exactly when 48× the packs exceed the shown stock |
| PrintHtml.NormalizeSpongeQty | src/features/export/buildPrintHtml.ts:205-215 | o when unit ≤ 0; 0 when o ≤ 0; o/unit when unit divides o and 1 ≤ o/unit ≤ 9999; otherwise o |
| PrintHtml.SpongeQtyReadsPieces | src/features/export/buildPrintHtml.ts:205-215 | a piece count q·unit reads back as q packs, and a count below the unit is kept |
| PrintHtml.SpongeStockShown | src/features/export/buildPrintHtml.ts:309-319 | the sponge cell shows the two stock entries' counts, 0 for a missing one |
| PrintHtml.SpongeTotalRule | src/features/export/buildPrintHtml.ts:233-238 | the piece total is q60·60 + q36·36 + q49·49 + q144·144 of non-negative quantities, a missing sub-id counting 0 |
| PrintHtml.BuildPrintHtml | src/features/export/buildPrintHtml.ts:283-334 | the sheet has six, five and six slots in its three rows |
| PrintHtml.Row2Slots | src/features/export/buildPrintHtml.ts:301-325 | the rusk, Danish rusk and sponge slots read the entries of their ids |
| PrintHtml.BreadCellsNeverWarn | src/features/export/buildPrintHtml.ts:329-334 | `yamapan`, `chigiri` and `danish` hide their order and never warn; the chiffon cells warn by the plain rule |
| PrintHtml.SheetFollowsCatalog | src/features/export/buildPrintHtml.ts:286-325 | the ids the sheet reads, row by row, are the catalog ids in catalog order |
| PrintHtml.SheetCoversCatalog | src/features/export/buildPrintHtml.ts:286-325 | the sheet reads every catalog id exactly once |
| PrintHtml.Row1Reads | src/features/export/buildPrintHtml.ts:353 | the first row depends only on the entries of its six ids |
| PrintHtml.SpongeSlotReads | src/features/export/buildPrintHtml.ts:309-319 | the sponge slot depends only on the entries of its six sponge ids |
| PrintHtml.Row2Reads | src/features/export/buildPrintHtml.ts:301-325 | the second row depends only on the entries of the twelve ids its slots read |
| PrintHtml.Row3Reads | src/features/export/buildPrintHtml.ts:327-332 | the third row depends only on the entries of its six ids |
| PrintHtml.SheetReadsShownIds | src/features/export/buildPrintHtml.ts:283-353 | two payloads with the same title whose maps agree on every shown id give the same sheet |
| Export.NoteMapLastWins | src/routes/Export.tsx:8-14 | an id has a note exactly when some rule for it has one, and the note is that of the last such rule |
| Export.BuildNoteMap | src/routes/Export.tsx:8-14 | the loop over `MAPPING` builds that note map |
| Export.SafeNum | src/routes/Export.tsx:16-18 | a finite number is kept, anything else is 0 |
| Export.SafeNumIsNumSafe | src/routes/Export.tsx:16-18 | `safeNum` agrees with the printer's `numSafe` on every payload value |
| Export.PrintPayload | src/routes/Export.tsx:45-61 | one payload entry per catalog item |
| Export.PayloadFollowsCatalog | src/routes/Export.tsx:29-60 | entry k copies item k's id, name and target label; shows the safe order unchanged and the safe stock ×6 for `sponge_raw`, ×36 for `sponge_done`, ×1 otherwise; carries a note exactly when a rule for the id has one |
| Export.PayloadLookup | src/routes/Export.tsx:48-60 | looking up a catalog id in the payload finds its entry |
| Export.PrintedSpongeStock | src/routes/Export.tsx:34-38 | the printed sponge cell shows 6× the entered unprocessed and 36× the entered processed sponge stock |
| Export.PrintedRuskCell | src/routes/Export.tsx:34-43 | the printed rusk cell shows 48× each flavour's entered stock and that flavour's order read as packs |
| AppStore.FiniteOrZero | src/state/appStore.ts:37 | the result is finite, and a finite input is kept |
| AppStore.SafeNumberMap | src/state/appStore.ts:32-40 | the loop over the entries builds `NumberMapOf` |
| AppStore.NumberMapRule | src/state/appStore.ts:32-40 | {} for a non-record; otherwise exactly the input's keys, finite numbers kept, non-finite numbers made 0 |
| AppStore.NumberMapKeepsFinite | src/state/appStore.ts:32-40 | a map of finite numbers passes through unchanged |
| AppStore.LoadStateFallsBack | src/state/appStore.ts:63-81 | nothing stored, an empty string, a failed parse, or a parsed `null` gives the initial state |
| AppStore.LoadStateFields | src/state/appStore.ts:70-78 | flags are `!!` of their properties; `exportDoneAt` and `csvFileName` are kept only when they are strings; both maps pass through `safeNumberMap` |
| AppStore.LoadStateValid | src/state/appStore.ts:63-82 | a loaded state only ever holds finite numbers |
| AppStore.LoadSaved | src/state/appStore.ts:63-86 | loading what `saveState` wrote gives back the saved state |
| AppStore.ActionFrames | src/state/appStore.ts:103-126 | each action changes only its own fields; the flag setters and `markExportDoneNow` write the given value, `setStock` stores the coerced stock map and `setOrders` the file name and the coerced order map |
| AppStore.ResetAllIsInitial | src/state/appStore.ts:128-131 | `resetAll` yields exactly the initial state, whose fields are false, null and {} |
| AppStore.ActionsIdempotent | src/state/appStore.ts:103-131 | applying the same action twice is applying it once |
| AppStore.ActionsKeepValid | src/state/appStore.ts:103-131 | every action keeps both maps finite |
| AppStore.StoredOrders | src/state/appStore.ts:116-121 | storing an import result keeps every total and turns `__notes` into the number 0 |
| AppStore.NotesKeyOutsideCatalog | src/domain/items.ts:11-54 | `__notes` is not a catalog id |
| AppStore.NotesDoNotSurvive | src/routes/CsvImport.tsx:26-29 | after an import, the stored orders are the per-item sums plus `__notes` = 0; no note text survives |

## Left out

- The text decoding `decodeArrayBuffer` (`src/features/csv/parseCsv.ts:32-60`) relies on `TextDecoder` and a library whose code is not part of this model. The file read in `parseCsvFile` is I/O. `ParseCsv.ParseRows` starts from the decoded text.
- The HTML markup of the print template, the stylesheet, and the iframe/window plumbing that prints the sheet are left out. `PrintHtml` models the values placed into the cells and the head's title, not the markup text.
- The browser storage access (`safeGetItem`, `safeSetItem`, `safeRemoveItem`) and the React hook wiring of `useAppStore` are left out. `saveState` is modelled as the JSON value it writes, `AppStore.ToJson`. The storage removal in `resetAll` is not modelled.
- `JSON.parse` is a parameter of `LoadState`: `None` stands for a parse that throws. `Number(...)` of a string or an array is a parameter `coerce`, because its parsing rules are not part of this model.
- `AppStore.LoadSaved`: stated for a `parse` that inverts the saved JSON value. `JSON.stringify` and `JSON.parse` themselves are not modelled.
- Numbers are whole and unbounded: fractional stock entries, fractional JSON numbers, rounding above 2^53 and overflow to Infinity are not modelled. NaN and the infinities are modelled where the app can see them as values.
- ToOrders.ToNumberSafe: reads the matched digit run as the exact integer. In the app, `Number` rounds a run beyond 2^53, and a run of more than 308 digits is Infinity, which the `isFinite` guard turns into 0; the model gives the exact value there.
- ParseCsv.RowOfSpec: a header field named `__proto__` becomes a key of the record. In the app, assigning to `row["__proto__"]` sets no own property, so that column is dropped.
- AppStore.NumberMapRule: a key `__proto__` of the input is kept. In the app, assigning to `out["__proto__"]` sets no own property, so that key is dropped.
- The clock read in `markExportDoneNow` is the `now` parameter of the action.
- The print payload's `dateLabel` (always "") is not modelled.
- Strings are sequences of characters, not of UTF-16 code units. All the app's literals lie in the Basic Multilingual Plane.
- `ToOrders.OrdersWithMeta` keeps the totals and the `__notes` record as two fields. `AppStore.OrdersObject` joins them into the single object the app passes on.
- Each item's section is one of the four sections by its type, `Items.Section`, so there is no lemma for it.
- ToOrders.PickSpongeUnit: `Number(m[1]) || 0` is read as the exact captured integer. In the app, a captured run beyond 2^53 is rounded and one of more than 308 digits is Infinity; the model does not capture either.
