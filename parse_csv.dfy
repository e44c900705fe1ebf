/**
 * The text stage of CSV import (src/features/csv/parseCsv.ts): line-ending
 * normalisation and line preparation, the quote-aware field splitter, the
 * header-line search and the header-keyed row records.
 *
 * Byte decoding (UTF-8 / Shift_JIS detection) is not modelled: the model
 * starts from the decoded text.
 */
module ParseCsv {
  import opened Text

  /** One CSV data row, keyed by header field. */
  type Row = map<string, string>

  // ----- splitCsvLine -----

  /** Puts `c` in front of the first field. */
  function PushFront(c: char, fs: seq<string>): (r: seq<string>)
    requires |fs| >= 1
    ensures |r| == |fs| && r[0] == [c] + fs[0] && r[1..] == fs[1..]
  {
    [[c] + fs[0]] + fs[1..]
  }

  /** The untrimmed fields the splitter produces for the rest of a line `s`, when it is
      inside a quoted section exactly when `inQ`.  Inside quotes `""` stands for one `"`;
      any other `"` toggles quoting and is dropped; a comma outside quotes ends a field;
      every other character (a comma inside quotes included) belongs to the current field. */
  function Scan(s: string, inQ: bool): (r: seq<string>)
    ensures |r| >= 1
  {
    if s == [] then [[]]
    else if s[0] == '"' then
      if inQ && |s| >= 2 && s[1] == '"' then PushFront('"', Scan(s[2..], inQ))
      else Scan(s[1..], !inQ)
    else if s[0] == ',' && !inQ then [[]] + Scan(s[1..], inQ)
    else PushFront(s[0], Scan(s[1..], inQ))
  }

  /** Every field trimmed (`.map((s) => s.trim())`). */
  function TrimAll(fs: seq<string>): (r: seq<string>)
    ensures |r| == |fs|
    ensures forall k :: 0 <= k < |fs| ==> r[k] == Trim(fs[k])
  {
    if fs == [] then [] else [Trim(fs[0])] + TrimAll(fs[1..])
  }

  /** The fields of one line, as `splitCsvLine` returns them. */
  function LineFields(line: string): seq<string> {
    TrimAll(Scan(line, false))
  }

  /** The fields finished so far, the field being built, and the fields still to come. */
  function Glue(out: seq<string>, cur: string, rest: seq<string>): seq<string>
    requires |rest| >= 1
  {
    out + [cur + rest[0]] + rest[1..]
  }

  lemma GluePush(out: seq<string>, cur: string, c: char, fs: seq<string>)
    requires |fs| >= 1
    ensures Glue(out, cur, PushFront(c, fs)) == Glue(out, cur + [c], fs)
  {
    assert cur + ([c] + fs[0]) == cur + [c] + fs[0];
  }

  lemma GlueComma(out: seq<string>, cur: string, fs: seq<string>)
    requires |fs| >= 1
    ensures Glue(out, cur, [[]] + fs) == Glue(out + [cur], [], fs)
  {
    assert ([[]] + fs)[1..] == fs;
    assert cur + [] == cur;
    assert [] + fs[0] == fs[0];
    assert out + [cur] + fs == out + [cur] + [fs[0]] + fs[1..];
  }

  /** Reading an escaped `""` inside quotes adds one `"` to the current field. */
  lemma StepEscaped(out: seq<string>, cur: string, s: string, inQ: bool)
    requires inQ && |s| >= 2 && s[0] == '"' && s[1] == '"'
    ensures Glue(out, cur, Scan(s, inQ)) == Glue(out, cur + ['"'], Scan(s[2..], inQ))
  {
    GluePush(out, cur, '"', Scan(s[2..], inQ));
  }

  /** Reading any other `"` toggles the quote state. */
  lemma StepToggle(out: seq<string>, cur: string, s: string, inQ: bool)
    requires s != [] && s[0] == '"' && !(inQ && |s| >= 2 && s[1] == '"')
    ensures Glue(out, cur, Scan(s, inQ)) == Glue(out, cur, Scan(s[1..], !inQ))
  {
  }

  /** Reading a comma outside quotes finishes the current field. */
  lemma StepComma(out: seq<string>, cur: string, s: string, inQ: bool)
    requires s != [] && s[0] == ',' && !inQ
    ensures Glue(out, cur, Scan(s, inQ)) == Glue(out + [cur], [], Scan(s[1..], inQ))
  {
    GlueComma(out, cur, Scan(s[1..], inQ));
  }

  /** Reading any other character appends it to the current field. */
  lemma StepChar(out: seq<string>, cur: string, s: string, inQ: bool)
    requires s != [] && s[0] != '"' && !(s[0] == ',' && !inQ)
    ensures Glue(out, cur, Scan(s, inQ)) == Glue(out, cur + [s[0]], Scan(s[1..], inQ))
  {
    GluePush(out, cur, s[0], Scan(s[1..], inQ));
  }

  /** `splitCsvLine`: one pass over the line with the current field and the quote state. */
  method SplitCsvLine(line: string) returns (fields: seq<string>)
    ensures fields == LineFields(line)
    ensures |fields| >= 1
    ensures forall k :: 0 <= k < |fields| ==> Trim(fields[k]) == fields[k]
  {
    var out: seq<string> := [];
    var cur: string := [];
    var inQ := false;
    var i := 0;
    ghost var all := Scan(line, false);
    assert line[0..] == line;
    assert Glue(out, cur, all) == all by {
      assert [] + all[0] == all[0];
      assert [all[0]] + all[1..] == all;
    }
    while i < |line|
      invariant 0 <= i <= |line|
      invariant Glue(out, cur, Scan(line[i..], inQ)) == all
      decreases |line| - i
    {
      ghost var s := line[i..];
      var ch := line[i];
      assert s[0] == ch && s[1..] == line[i + 1..];
      if ch == '"' {
        if inQ && i + 1 < |line| && line[i + 1] == '"' {
          assert s[2..] == line[i + 2..];
          StepEscaped(out, cur, s, inQ);
          cur := cur + ['"'];
          i := i + 1;
        } else {
          StepToggle(out, cur, s, inQ);
          inQ := !inQ;
        }
      } else if ch == ',' && !inQ {
        StepComma(out, cur, s, inQ);
        out := out + [cur];
        cur := [];
      } else {
        StepChar(out, cur, s, inQ);
        cur := cur + [ch];
      }
      i := i + 1;
    }
    assert line[i..] == [];
    assert cur + [] == cur;
    out := out + [cur];
    fields := TrimAll(out);
    TrimIdempotentAll(out);
  }

  lemma TrimIdempotentAll(fs: seq<string>)
    ensures forall k :: 0 <= k < |fs| ==> Trim(Trim(fs[k])) == Trim(fs[k])
  {
    forall k | 0 <= k < |fs| ensures Trim(Trim(fs[k])) == Trim(fs[k]) {
      TrimIdempotent(fs[k]);
    }
  }

  /** A line with no `"` splits exactly at its commas. */
  lemma {:induction false} ScanNoQuotes(s: string)
    requires '"' !in s
    ensures Scan(s, false) == Split(s, ',')
  {
    if s != [] {
      assert '"' !in s[1..];
      ScanNoQuotes(s[1..]);
    }
  }

  /** The number of commas of `s` outside quoted sections, when `s` starts inside one exactly
      when `inQ`; an escaped `""` inside quotes leaves the quoting as it is. */
  function OutsideCommas(s: string, inQ: bool): nat {
    if s == [] then 0
    else if s[0] == '"' && inQ && |s| >= 2 && s[1] == '"' then OutsideCommas(s[2..], inQ)
    else
      var q := if s[0] == '"' then !inQ else inQ;
      (if s[0] == ',' && !inQ then 1 else 0) + OutsideCommas(s[1..], q)
  }

  /** One field more than there are commas outside quotes. */
  lemma {:induction false} ScanFieldCount(s: string, inQ: bool)
    ensures |Scan(s, inQ)| == 1 + OutsideCommas(s, inQ)
  {
    if s != [] {
      if s[0] == '"' && inQ && |s| >= 2 && s[1] == '"' {
        ScanFieldCount(s[2..], inQ);
      } else if s[0] == '"' {
        ScanFieldCount(s[1..], !inQ);
      } else {
        ScanFieldCount(s[1..], inQ);
      }
    }
  }

  /** `splitCsvLine` returns one field more than the line has commas outside quotes. */
  lemma LineFieldCount(line: string)
    ensures |LineFields(line)| == 1 + OutsideCommas(line, false)
  {
    ScanFieldCount(line, false);
  }

  // ----- the quoted encoding it reads back -----

  /** Every `"` of a field written twice. */
  function DoubleQuotes(f: string): (r: string)
    ensures |r| >= |f|
  {
    if f == [] then []
    else (if f[0] == '"' then ['"', '"'] else [f[0]]) + DoubleQuotes(f[1..])
  }

  /** A field written as a quoted CSV field. */
  function Quote(f: string): string {
    ['"'] + DoubleQuotes(f) + ['"']
  }

  function QuoteAll(fs: seq<string>): (r: seq<string>)
    ensures |r| == |fs|
    ensures forall k :: 0 <= k < |fs| ==> r[k] == Quote(fs[k])
  {
    if fs == [] then [] else [Quote(fs[0])] + QuoteAll(fs[1..])
  }

  /** A line written the way a spreadsheet exports it: every field quoted, commas between. */
  function EncodeLine(fs: seq<string>): string {
    Join(QuoteAll(fs), ",")
  }

  /** Puts `f` in front of the first field. */
  function PrependFirst(f: string, fs: seq<string>): seq<string>
    requires |fs| >= 1
  {
    [f + fs[0]] + fs[1..]
  }

  /** The body of a quoted field, read inside quotes, gives the field back; the closing
      quote ends the quoted section. */
  lemma {:induction false} ScanQuotedBody(f: string, rest: string)
    requires rest == [] || rest[0] != '"'
    ensures Scan(DoubleQuotes(f) + ['"'] + rest, true) == PrependFirst(f, Scan(rest, false))
  {
    if f == [] {
      ScanClosingQuote(rest);
    } else {
      var tail := DoubleQuotes(f[1..]) + ['"'] + rest;
      ScanQuotedBody(f[1..], rest);
      DoubleQuotesCons(f, rest);
      ScanQuotedStep(f[0], f[1..], tail, Scan(rest, false));
      assert f == [f[0]] + f[1..];
    }
  }

  /** The closing quote of a quoted field. */
  lemma ScanClosingQuote(rest: string)
    requires rest == [] || rest[0] != '"'
    ensures Scan(DoubleQuotes([]) + ['"'] + rest, true) == PrependFirst([], Scan(rest, false))
  {
    var s := DoubleQuotes([]) + ['"'] + rest;
    assert s == ['"'] + rest && s[1..] == rest;
    assert [] + Scan(rest, false)[0] == Scan(rest, false)[0];
  }

  /** How a character is written inside a quoted field. */
  function Escaped(c: char): string {
    if c == '"' then ['"', '"'] else [c]
  }

  lemma DoubleQuotesCons(f: string, rest: string)
    requires f != []
    ensures DoubleQuotes(f) + ['"'] + rest == Escaped(f[0]) + (DoubleQuotes(f[1..]) + ['"'] + rest)
  {
  }

  /** One character of a quoted field's body, given what the rest of the body reads as. */
  lemma ScanQuotedStep(c: char, g: string, tail: string, x: seq<string>)
    requires |x| >= 1 && Scan(tail, true) == PrependFirst(g, x)
    ensures Scan(Escaped(c) + tail, true) == PrependFirst([c] + g, x)
  {
    PushPrepend(c, g, x);
    if c == '"' {
      ScanEscapedStep(tail);
    } else {
      ScanCharStep(c, tail);
    }
  }

  lemma ScanEscapedStep(tail: string)
    ensures Scan(['"', '"'] + tail, true) == PushFront('"', Scan(tail, true))
  {
    assert (['"', '"'] + tail)[2..] == tail;
  }

  lemma ScanCharStep(c: char, tail: string)
    requires c != '"'
    ensures Scan([c] + tail, true) == PushFront(c, Scan(tail, true))
  {
    assert ([c] + tail)[1..] == tail;
  }

  lemma PushPrepend(c: char, g: string, x: seq<string>)
    requires |x| >= 1
    ensures PushFront(c, PrependFirst(g, x)) == PrependFirst([c] + g, x)
  {
    assert [c] + (g + x[0]) == [c] + g + x[0];
  }

  lemma ScanQuoted(f: string, rest: string)
    requires rest == [] || rest[0] != '"'
    ensures Scan(Quote(f) + rest, false) == PrependFirst(f, Scan(rest, false))
  {
    var s := Quote(f) + rest;
    assert s[0] == '"';
    assert s[1..] == DoubleQuotes(f) + ['"'] + rest;
    ScanQuotedBody(f, rest);
  }

  /** Splitting a line written by `EncodeLine` gives the untrimmed fields back. */
  lemma {:induction false} ScanEncodeLine(fs: seq<string>)
    requires |fs| >= 1
    ensures Scan(EncodeLine(fs), false) == fs
  {
    if |fs| == 1 {
      assert EncodeLine(fs) == Quote(fs[0]) + [];
      ScanQuoted(fs[0], []);
      assert fs[0] + [] == fs[0];
    } else {
      var rest := EncodeLine(fs[1..]);
      assert QuoteAll(fs)[1..] == QuoteAll(fs[1..]);
      assert EncodeLine(fs) == Quote(fs[0]) + ([','] + rest);
      ScanQuoted(fs[0], [','] + rest);
      assert ([','] + rest)[1..] == rest;
      ScanEncodeLine(fs[1..]);
      assert Scan([','] + rest, false) == [[]] + fs[1..];
      assert fs[0] + [] == fs[0];
    }
  }

  /** The round trip `splitCsvLine` completes: fields that carry no surrounding whitespace,
      quoted and joined with commas, come back unchanged, whatever commas and quotes they hold. */
  lemma LineFieldsEncodeLine(fs: seq<string>)
    requires |fs| >= 1
    requires forall k :: 0 <= k < |fs| ==> Trim(fs[k]) == fs[k]
    ensures LineFields(EncodeLine(fs)) == fs
  {
    ScanEncodeLine(fs);
  }

  // ----- line preparation -----

  /** `.replace(/\r\n/g, "\n")`: every CR LF pair, read left to right, becomes LF. */
  function CollapseCrLf(s: string): (r: string)
    ensures |r| <= |s|
  {
    if s == [] then []
    else if |s| >= 2 && s[0] == '\r' && s[1] == '\n' then ['\n'] + CollapseCrLf(s[2..])
    else [s[0]] + CollapseCrLf(s[1..])
  }

  /** Both line-ending replacements: CR LF, then any remaining CR, become LF. */
  function NormalizeLineEnds(s: string): (r: string)
    ensures '\r' !in r
    ensures |r| <= |s|
    ensures |s| == 1 ==> r == if s[0] == '\r' then "\n" else s
    ensures s == "\r\n" ==> r == "\n"
  {
    ReplaceChar(CollapseCrLf(s), '\r', '\n')
  }

  function TrimEndAll(ls: seq<string>): (r: seq<string>)
    ensures |r| == |ls|
    ensures forall k :: 0 <= k < |ls| ==> r[k] == TrimEnd(ls[k])
  {
    if ls == [] then [] else [TrimEnd(ls[0])] + TrimEndAll(ls[1..])
  }

  /** `.filter((l) => l.length > 0)`. */
  function DropEmpty(ls: seq<string>): (r: seq<string>)
    ensures |r| <= |ls|
    ensures forall k :: 0 <= k < |r| ==> r[k] != [] && r[k] in ls
    ensures |ls| == 1 ==> r == if ls[0] == [] then [] else ls
  {
    if ls == [] then []
    else if ls[0] == [] then DropEmpty(ls[1..])
    else [ls[0]] + DropEmpty(ls[1..])
  }

  /** The filter works line by line: it distributes over concatenation, so it keeps the
      non-empty lines in their order. */
  lemma {:induction false} DropEmptyAppend(a: seq<string>, b: seq<string>)
    ensures DropEmpty(a + b) == DropEmpty(a) + DropEmpty(b)
  {
    if a == [] {
      assert a + b == b;
    } else {
      assert (a + b)[0] == a[0];
      assert (a + b)[1..] == a[1..] + b;
      DropEmptyAppend(a[1..], b);
    }
  }

  /** Two texts whose boundary does not fall between the CR and the LF of a pair. */
  predicate NoPairSplit(a: string, b: string) {
    a == [] || b == [] || a[|a| - 1] != '\r' || b[0] != '\n'
  }

  /** A single character is kept; a CR LF pair becomes LF. */
  lemma CollapseCrLfBase(s: string)
    ensures |s| <= 1 ==> CollapseCrLf(s) == s
    ensures s == "\r\n" ==> CollapseCrLf(s) == "\n"
  {
    if s == "\r\n" {
      assert s[2..] == [];
    }
  }

  /** A leading CR LF pair is collapsed, with or without text after it. */
  lemma CollapsePairStep(a: string, b: string)
    requires |a| >= 2 && a[0] == '\r' && a[1] == '\n'
    ensures CollapseCrLf(a + b) == ['\n'] + CollapseCrLf(a[2..] + b)
    ensures CollapseCrLf(a) == ['\n'] + CollapseCrLf(a[2..])
  {
    assert (a + b)[0] == '\r' && (a + b)[1] == '\n';
    assert (a + b)[2..] == a[2..] + b;
  }

  /** Any other leading character is kept, with or without text after it, unless the text
      after it completes a pair. */
  lemma CollapseOtherStep(a: string, b: string)
    requires a != [] && !(|a| >= 2 && a[0] == '\r' && a[1] == '\n') && NoPairSplit(a, b)
    ensures CollapseCrLf(a + b) == [a[0]] + CollapseCrLf(a[1..] + b)
    ensures CollapseCrLf(a) == [a[0]] + CollapseCrLf(a[1..])
  {
    var ab := a + b;
    assert ab[0] == a[0];
    assert |a| >= 2 ==> ab[1] == a[1];
    assert |a| == 1 && |b| >= 1 ==> ab[1] == b[0];
    assert ab[1..] == a[1..] + b;
  }

  /** Collapsing CR LF works piece by piece, as long as no pair is cut in two. */
  lemma {:induction false} CollapseCrLfAppend(a: string, b: string)
    requires NoPairSplit(a, b)
    ensures CollapseCrLf(a + b) == CollapseCrLf(a) + CollapseCrLf(b)
    decreases |a|
  {
    if a == [] {
      assert a + b == b;
    } else {
      var n := if |a| >= 2 && a[0] == '\r' && a[1] == '\n' then 2 else 1;
      var t := a[n..];
      assert NoPairSplit(t, b) by {
        assert t == [] || t[|t| - 1] == a[|a| - 1];
      }
      CollapseCrLfAppend(t, b);
      var head := if n == 2 then "\n" else [a[0]];
      if n == 2 {
        CollapsePairStep(a, b);
      } else {
        CollapseOtherStep(a, b);
      }
      ConsAssoc(head, CollapseCrLf(t), CollapseCrLf(b), CollapseCrLf(t + b), CollapseCrLf(a), CollapseCrLf(a + b));
    }
  }

  lemma ConsAssoc(x: string, ct: string, cb: string, ctb: string, ca: string, cab: string)
    requires ctb == ct + cb && cab == x + ctb && ca == x + ct
    ensures cab == ca + cb
  {
  }

  lemma {:induction false} ReplaceCharAppend(a: string, b: string, x: char, y: char)
    ensures ReplaceChar(a + b, x, y) == ReplaceChar(a, x, y) + ReplaceChar(b, x, y)
  {
    if a == [] {
      assert a + b == b;
    } else {
      assert (a + b)[0] == a[0];
      assert (a + b)[1..] == a[1..] + b;
      ReplaceCharAppend(a[1..], b, x, y);
    }
  }

  /** Normalising line endings works piece by piece, as long as no CR LF pair is cut in two;
      with the one-character and the pair cases this fixes the result for every text. */
  lemma NormalizeLineEndsAppend(a: string, b: string)
    requires NoPairSplit(a, b)
    ensures NormalizeLineEnds(a + b) == NormalizeLineEnds(a) + NormalizeLineEnds(b)
  {
    CollapseCrLfAppend(a, b);
    ReplaceCharAppend(CollapseCrLf(a), CollapseCrLf(b), '\r', '\n');
  }

  /** A line as the preparation step leaves it: non-empty, no line break, no trailing whitespace. */
  predicate CleanLine(l: string) {
    l != [] && '\n' !in l && '\r' !in l && !IsSpace(l[|l| - 1])
  }

  /** The lines the parser works on: line endings normalised, split at LF, trailing
      whitespace trimmed, empty lines dropped. */
  function PrepareLines(text: string): (ls: seq<string>)
    ensures forall k :: 0 <= k < |ls| ==> CleanLine(ls[k])
  {
    var pieces := Split(NormalizeLineEnds(text), '\n');
    PiecesClean(pieces, NormalizeLineEnds(text));
    DropEmpty(TrimEndAll(pieces))
  }

  /** An empty text has no lines, so the parser returns no records for it. */
  lemma PrepareLinesEmpty()
    ensures PrepareLines([]) == []
  {
    assert NormalizeLineEnds([]) == [];
    assert Split([], '\n') == [[]];
    assert TrimEndAll([[]]) == [[]];
  }

  /** The pieces of a text without CR, split at LF, trimmed at the end and kept when non-empty,
      are clean lines. */
  lemma PiecesClean(pieces: seq<string>, s: string)
    requires pieces == Split(s, '\n') && '\r' !in s
    ensures forall k :: 0 <= k < |DropEmpty(TrimEndAll(pieces))| ==> CleanLine(DropEmpty(TrimEndAll(pieces))[k])
  {
    var ts := TrimEndAll(pieces);
    var ls := DropEmpty(ts);
    forall k | 0 <= k < |ls| ensures CleanLine(ls[k]) {
      assert ls[k] in ts && ls[k] != [];
      var j :| 0 <= j < |ts| && ts[j] == ls[k];
      PieceClean(pieces, s, j);
    }
  }

  /** One piece of such a text, trimmed at the end, is a clean line unless it is empty. */
  lemma PieceClean(pieces: seq<string>, s: string, j: nat)
    requires pieces == Split(s, '\n') && '\r' !in s && j < |pieces| && TrimEnd(pieces[j]) != []
    ensures CleanLine(TrimEnd(pieces[j]))
  {
    var l := TrimEnd(pieces[j]);
    TrimEndSpec(pieces[j]);
    JoinSplit(s, '\n');
    forall p | 0 <= p < |l| ensures l[p] != '\r' && l[p] != '\n' {
      assert l[p] == pieces[j][p];
      JoinHasPartChars(pieces, "\n", j, p);
    }
  }

  /** A character of a part of a join is a character of the join. */
  lemma JoinHasPartChars(parts: seq<string>, sep: string, j: nat, p: nat)
    requires j < |parts| && p < |parts[j]|
    ensures parts[j][p] in Join(parts, sep)
  {
    JoinContainsPart(parts, sep, j);
    var i :| 0 <= i <= |Join(parts, sep)| - |parts[j]| && OccursAt(Join(parts, sep), parts[j], i);
    assert Join(parts, sep)[i + p] == parts[j][p];
  }

  lemma {:induction false} CollapseCrLfNoCr(s: string)
    requires '\r' !in s
    ensures CollapseCrLf(s) == s
  {
    if s != [] {
      assert '\r' !in s[1..];
      CollapseCrLfNoCr(s[1..]);
    }
  }

  lemma {:induction false} ReplaceCharAbsent(s: string, x: char, y: char)
    requires x !in s
    ensures ReplaceChar(s, x, y) == s
  {
  }

  lemma {:induction false} TrimEndAllClean(ls: seq<string>)
    requires forall k :: 0 <= k < |ls| ==> CleanLine(ls[k])
    ensures TrimEndAll(ls) == ls
    ensures DropEmpty(ls) == ls
  {
    if ls != [] {
      TrimEndAllClean(ls[1..]);
    }
  }

  /** Lines that are already clean, joined with LF, are prepared back into themselves. */
  lemma PrepareLinesJoinLf(ls: seq<string>)
    requires forall k :: 0 <= k < |ls| ==> CleanLine(ls[k])
    ensures PrepareLines(Join(ls, "\n")) == ls
  {
    if ls == [] {
      assert Split([], '\n') == [[]];
      assert TrimEndAll([[]]) == [[]];
    } else {
      var text := Join(ls, "\n");
      JoinCleanNoCr(ls, "\n");
      CollapseCrLfNoCr(text);
      ReplaceCharAbsent(text, '\r', '\n');
      SplitJoin(ls, '\n');
      TrimEndAllClean(ls);
    }
  }

  /** A join of clean lines with a separator free of CR has no CR. */
  lemma {:induction false} JoinCleanNoCr(ls: seq<string>, sep: string)
    requires forall k :: 0 <= k < |ls| ==> CleanLine(ls[k])
    requires '\r' !in sep
    ensures '\r' !in Join(ls, sep)
  {
    if |ls| > 1 {
      JoinCleanNoCr(ls[1..], sep);
    }
  }

  /** CR LF line endings collapse to the LF join of the same lines. */
  lemma {:induction false} CollapseCrLfJoin(ls: seq<string>)
    requires forall k :: 0 <= k < |ls| ==> CleanLine(ls[k])
    ensures CollapseCrLf(Join(ls, "\r\n")) == Join(ls, "\n")
  {
    if ls == [] {
    } else if |ls| == 1 {
      CollapseCrLfNoCr(ls[0]);
    } else {
      CollapseCrLfJoin(ls[1..]);
      CollapseCrLfAfter(ls[0], Join(ls[1..], "\r\n"));
    }
  }

  lemma {:induction false} CollapseCrLfAfter(a: string, b: string)
    requires '\r' !in a
    ensures CollapseCrLf(a + "\r\n" + b) == a + "\n" + CollapseCrLf(b)
  {
    if a == [] {
      assert [] + "\r\n" + b == "\r\n" + b;
      assert ("\r\n" + b)[2..] == b;
    } else {
      assert (a + "\r\n" + b)[0] == a[0] != '\r';
      assert (a + "\r\n" + b)[1..] == a[1..] + "\r\n" + b;
      CollapseCrLfAfter(a[1..], b);
      assert [a[0]] + a[1..] == a;
    }
  }

  /** A line that holds no line break. */
  predicate NoBreak(l: string) {
    '\n' !in l && '\r' !in l
  }

  /** A join of lines without CR, with a separator without CR, has no CR. */
  lemma {:induction false} JoinNoCr(ls: seq<string>, sep: string)
    requires forall k :: 0 <= k < |ls| ==> '\r' !in ls[k]
    requires '\r' !in sep
    ensures '\r' !in Join(ls, sep)
  {
    if |ls| > 1 {
      JoinNoCr(ls[1..], sep);
    }
  }

  /** Any lines without line breaks, joined with LF, are prepared into the same lines, each
      trimmed at the end, with the empty ones dropped and the order kept. */
  lemma PrepareLinesJoinLfAny(ls: seq<string>)
    requires forall k :: 0 <= k < |ls| ==> NoBreak(ls[k])
    ensures PrepareLines(Join(ls, "\n")) == DropEmpty(TrimEndAll(ls))
  {
    if ls == [] {
      PrepareLinesEmpty();
    } else {
      var text := Join(ls, "\n");
      JoinNoCr(ls, "\n");
      CollapseCrLfNoCr(text);
      ReplaceCharAbsent(text, '\r', '\n');
      SplitJoin(ls, '\n');
    }
  }

  /** A lone CR separates lines as LF does. */
  lemma {:induction false} NormalizeJoinCr(ls: seq<string>)
    requires forall k :: 0 <= k < |ls| ==> NoBreak(ls[k])
    ensures NormalizeLineEnds(Join(ls, "\r")) == Join(ls, "\n")
  {
    if |ls| == 1 {
      CollapseCrLfNoCr(ls[0]);
      ReplaceCharAbsent(ls[0], '\r', '\n');
    } else if |ls| > 1 {
      var rest := Join(ls[1..], "\r");
      NormalizeJoinCr(ls[1..]);
      assert rest == [] || rest[0] != '\n' by {
        if rest != [] {
          JoinFirstChar(ls[1..], "\r");
        }
      }
      assert NoPairSplit(ls[0], "\r" + rest) by {
        assert ls[0] == [] || ls[0][|ls[0]| - 1] in ls[0];
      }
      MixedStep(ls[0], "\r", rest, Join(ls[1..], "\n"));
      JoinUnfold(ls, "\r");
      JoinUnfold(ls, "\n");
    }
  }

  /** A join of more than one part, split after the first part. */
  lemma JoinUnfold(ls: seq<string>, sep: string)
    requires |ls| > 1
    ensures Join(ls, sep) == ls[0] + (sep + Join(ls[1..], sep))
  {
    Assoc(ls[0], sep, Join(ls[1..], sep));
  }

  /** The first character of a non-empty join of break-free lines is not LF. */
  lemma JoinFirstChar(ls: seq<string>, sep: string)
    requires forall k :: 0 <= k < |ls| ==> NoBreak(ls[k])
    requires sep == "\r" && Join(ls, sep) != []
    ensures Join(ls, sep)[0] != '\n'
  {
    if ls[0] != [] {
      if |ls| > 1 {
        assert Join(ls, sep)[0] == ls[0][0];
      }
      assert ls[0][0] in ls[0];
    }
  }

  /** Lines separated by lone CRs, as old Mac files have them, are prepared like LF-separated
      ones. */
  lemma PrepareLinesJoinCr(ls: seq<string>)
    requires forall k :: 0 <= k < |ls| ==> NoBreak(ls[k])
    ensures PrepareLines(Join(ls, "\r")) == DropEmpty(TrimEndAll(ls))
  {
    NormalizeJoinCr(ls);
    var text := Join(ls, "\n");
    if ls != [] {
      JoinNoCr(ls, "\n");
      CollapseCrLfNoCr(text);
      ReplaceCharAbsent(text, '\r', '\n');
    }
    assert NormalizeLineEnds(Join(ls, "\r")) == NormalizeLineEnds(text);
    PrepareLinesJoinLfAny(ls);
  }

  /** One of the three line endings a file may use. */
  predicate LineBreak(sep: string) {
    sep == "\n" || sep == "\r" || sep == "\r\n"
  }

  /** Lines joined with a line ending of its own between each two, as a file that mixes
      Unix, Windows and old Mac endings has them. */
  function JoinMixed(ls: seq<string>, seps: seq<string>): (r: string)
    requires ls != [] ==> |seps| == |ls| - 1
    ensures ls != [] ==> |ls[0]| <= |r| && r[..|ls[0]|] == ls[0]
  {
    if |ls| <= 1 then (if ls == [] then [] else ls[0])
    else ls[0] + seps[0] + JoinMixed(ls[1..], seps[1..])
  }

  /** The lines and endings of a mixed file: no line holds a break and every ending is one
      of the three. */
  predicate MixedLines(ls: seq<string>, seps: seq<string>) {
    && (ls != [] ==> |seps| == |ls| - 1)
    && (forall k :: 0 <= k < |ls| ==> NoBreak(ls[k]))
    && (forall k :: 0 <= k < |seps| ==> LineBreak(seps[k]))
  }

  /** No lone CR is followed by an empty line and then an LF ending: in the text such a CR
      and that LF are adjacent, so they form one CR LF pair and the empty line between them
      does not appear. */
  predicate NoHiddenPair(ls: seq<string>, seps: seq<string>) {
    forall k :: 0 <= k && k + 1 < |seps| && k + 1 < |ls| && seps[k] == "\r" && ls[k + 1] == [] ==> seps[k + 1] != "\n"
  }

  /** The lines and endings after the first line keep both conditions. */
  lemma MixedLinesTail(ls: seq<string>, seps: seq<string>)
    requires MixedLines(ls, seps) && |ls| > 1
    ensures MixedLines(ls[1..], seps[1..])
    ensures NoHiddenPair(ls, seps) ==> NoHiddenPair(ls[1..], seps[1..])
  {
    if NoHiddenPair(ls, seps) {
      forall k | 0 <= k && k + 1 < |seps[1..]| && k + 1 < |ls[1..]| && seps[1..][k] == "\r" && ls[1..][k + 1] == []
        ensures seps[1..][k + 1] != "\n"
      {
        assert seps[k + 1] == "\r" && ls[k + 2] == [];
      }
    }
  }

  /** The first ending of mixed lines does not complete a pair with the text after it. */
  lemma MixedFirstBreak(ls: seq<string>, seps: seq<string>)
    requires MixedLines(ls, seps) && NoHiddenPair(ls, seps) && |ls| > 1
    ensures NoPairSplit(ls[0], seps[0] + JoinMixed(ls[1..], seps[1..]))
    ensures NoPairSplit(seps[0], JoinMixed(ls[1..], seps[1..]))
    ensures NormalizeLineEnds(seps[0]) == "\n"
  {
    var rest := JoinMixed(ls[1..], seps[1..]);
    assert LineBreak(seps[0]);
    assert NoBreak(ls[0]);
    assert ls[0] == [] || ls[0][|ls[0]| - 1] in ls[0];
    if seps[0] == "\r" && rest != [] {
      if ls[1] != [] {
        assert rest[..|ls[1]|] == ls[1];
        assert rest[0] == ls[1][0];
        assert NoBreak(ls[1]);
        assert ls[1][0] in ls[1];
      } else {
        assert |ls| > 2;
        MixedUnfold(ls[1..], seps[1..]);
        assert seps[1] != "\n";
        assert LineBreak(seps[1]);
        assert rest[0] == seps[1][0];
      }
    }
  }

  /** Any mix of the three line endings without a hidden pair is normalised to LF between
      the same lines. */
  lemma {:induction false} NormalizeJoinMixed(ls: seq<string>, seps: seq<string>)
    requires MixedLines(ls, seps) && NoHiddenPair(ls, seps)
    ensures NormalizeLineEnds(JoinMixed(ls, seps)) == Join(ls, "\n")
  {
    if |ls| == 1 {
      CollapseCrLfNoCr(ls[0]);
      ReplaceCharAbsent(ls[0], '\r', '\n');
    } else if |ls| > 1 {
      var rest := JoinMixed(ls[1..], seps[1..]);
      MixedLinesTail(ls, seps);
      NormalizeJoinMixed(ls[1..], seps[1..]);
      MixedFirstBreak(ls, seps);
      MixedStep(ls[0], seps[0], rest, Join(ls[1..], "\n"));
      MixedUnfold(ls, seps);
    }
  }

  /** Merges every lone CR, empty line, LF ending into one CR LF ending, from the front. */
  function Repair(ls: seq<string>, seps: seq<string>): (r: (seq<string>, seq<string>))
    requires ls != [] ==> |seps| == |ls| - 1
    ensures ls != [] ==> r.0 != [] && |r.1| == |r.0| - 1 && r.0[0] == ls[0]
    ensures |ls| > 1 ==> |r.0| > 1 && (r.1[0] == seps[0] || r.1[0] == "\r\n")
    ensures ls == [] ==> r == (ls, seps)
    decreases |ls|
  {
    if |ls| <= 1 then (ls, seps)
    else if |ls| > 2 && seps[0] == "\r" && ls[1] == [] && seps[1] == "\n" then
      Repair([ls[0]] + ls[2..], ["\r\n"] + seps[2..])
    else
      var t := Repair(ls[1..], seps[1..]);
      ([ls[0]] + t.0, [seps[0]] + t.1)
  }

  /** Repairing keeps lines without breaks and the three endings, and leaves no hidden
      pair. */
  lemma {:induction false} RepairLines(ls: seq<string>, seps: seq<string>)
    requires MixedLines(ls, seps)
    ensures MixedLines(Repair(ls, seps).0, Repair(ls, seps).1)
    ensures NoHiddenPair(Repair(ls, seps).0, Repair(ls, seps).1)
    decreases |ls|
  {
    if |ls| > 2 && seps[0] == "\r" && ls[1] == [] && seps[1] == "\n" {
      var ms, mseps := [ls[0]] + ls[2..], ["\r\n"] + seps[2..];
      MergeLines(ls, seps);
      RepairLines(ms, mseps);
    } else if |ls| > 1 {
      MixedLinesTail(ls, seps);
      RepairLines(ls[1..], seps[1..]);
      ConsLines(ls, seps, Repair(ls[1..], seps[1..]).0, Repair(ls[1..], seps[1..]).1);
    }
  }

  /** Merging one hidden pair keeps lines without breaks and the three endings. */
  lemma MergeLines(ls: seq<string>, seps: seq<string>)
    requires MixedLines(ls, seps) && |ls| > 2
    ensures MixedLines([ls[0]] + ls[2..], ["\r\n"] + seps[2..])
  {
    var ms, mseps := [ls[0]] + ls[2..], ["\r\n"] + seps[2..];
    forall k | 0 <= k < |ms|
      ensures NoBreak(ms[k])
    {
      if k > 0 {
        assert ms[k] == ls[k + 1];
      }
    }
    forall k | 0 <= k < |mseps|
      ensures LineBreak(mseps[k])
    {
      if k > 0 {
        assert mseps[k] == seps[k + 1];
      }
    }
  }

  /** A first line and ending put in front of repaired lines keep both conditions, unless
      they form a hidden pair with the first repaired line, which repairing excludes. */
  lemma ConsLines(ls: seq<string>, seps: seq<string>, tl: seq<string>, tseps: seq<string>)
    requires MixedLines(ls, seps) && |ls| > 1
    requires !(|ls| > 2 && seps[0] == "\r" && ls[1] == [] && seps[1] == "\n")
    requires tl == Repair(ls[1..], seps[1..]).0 && tseps == Repair(ls[1..], seps[1..]).1
    requires MixedLines(tl, tseps) && NoHiddenPair(tl, tseps)
    ensures MixedLines([ls[0]] + tl, [seps[0]] + tseps)
    ensures NoHiddenPair([ls[0]] + tl, [seps[0]] + tseps)
  {
    var rl, rs := [ls[0]] + tl, [seps[0]] + tseps;
    assert tl[0] == ls[1];
    assert |ls| > 2 ==> tseps[0] == seps[1] || tseps[0] == "\r\n";
    forall k | 0 <= k < |rl|
      ensures NoBreak(rl[k])
    {
      if k > 0 {
        assert rl[k] == tl[k - 1];
      }
    }
    forall k | 0 <= k < |rs|
      ensures LineBreak(rs[k])
    {
      if k > 0 {
        assert rs[k] == tseps[k - 1];
      }
    }
    forall k | 0 <= k && k + 1 < |rs| && k + 1 < |rl| && rs[k] == "\r" && rl[k + 1] == []
      ensures rs[k + 1] != "\n"
    {
      if k > 0 {
        assert rs[k] == tseps[k - 1] && rl[k + 1] == tl[k] && rs[k + 1] == tseps[k];
      }
    }
  }

  /** Repairing keeps the text. */
  lemma {:induction false} RepairJoin(ls: seq<string>, seps: seq<string>)
    requires ls != [] ==> |seps| == |ls| - 1
    ensures JoinMixed(Repair(ls, seps).0, Repair(ls, seps).1) == JoinMixed(ls, seps)
    decreases |ls|
  {
    if |ls| > 2 && seps[0] == "\r" && ls[1] == [] && seps[1] == "\n" {
      var ms, mseps := [ls[0]] + ls[2..], ["\r\n"] + seps[2..];
      RepairJoin(ms, mseps);
      MergeJoin(ls, seps);
    } else if |ls| > 1 {
      RepairJoin(ls[1..], seps[1..]);
      var t := Repair(ls[1..], seps[1..]);
      MixedUnfold([ls[0]] + t.0, [seps[0]] + t.1);
      assert ([ls[0]] + t.0)[1..] == t.0 && ([seps[0]] + t.1)[1..] == t.1;
      MixedUnfold(ls, seps);
    }
  }

  /** Merging a lone CR, an empty line and an LF into CR LF keeps the text. */
  lemma MergeJoin(ls: seq<string>, seps: seq<string>)
    requires |ls| > 2 && |seps| == |ls| - 1 && seps[0] == "\r" && ls[1] == [] && seps[1] == "\n"
    ensures JoinMixed([ls[0]] + ls[2..], ["\r\n"] + seps[2..]) == JoinMixed(ls, seps)
  {
    var ms, mseps := [ls[0]] + ls[2..], ["\r\n"] + seps[2..];
    var rest := JoinMixed(ls[2..], seps[2..]);
    var j1 := JoinMixed(ls[1..], seps[1..]);
    assert JoinMixed(ms, mseps) == ls[0] + ("\r\n" + rest) by {
      MixedUnfold(ms, mseps);
      assert ms[1..] == ls[2..] && mseps[1..] == seps[2..];
    }
    assert JoinMixed(ls, seps) == ls[0] + ("\r" + j1) by {
      MixedUnfold(ls, seps);
    }
    assert j1 == ls[1] + ("\n" + rest) by {
      MixedUnfold(ls[1..], seps[1..]);
      assert ls[1..][1..] == ls[2..] && seps[1..][1..] == seps[2..];
    }
    MergeText(ls[0], ls[1], rest, j1);
  }

  lemma MergeText(l: string, e: string, rest: string, j1: string)
    requires e == [] && j1 == e + ("\n" + rest)
    ensures l + ("\r" + j1) == l + ("\r\n" + rest)
  {
    assert j1 == "\n" + rest;
    Assoc("\r", "\n", rest);
  }

  /** The prepared lines of a list of lines: trimmed at the end, empty ones dropped. */
  function KeptLines(ls: seq<string>): seq<string> {
    DropEmpty(TrimEndAll(ls))
  }

  /** The kept lines of a first line and the rest. */
  lemma KeptLinesCons(l: string, ls: seq<string>)
    ensures KeptLines([l] + ls) == KeptLines([l]) + KeptLines(ls)
  {
    assert ([l] + ls)[1..] == ls;
    assert TrimEndAll([l] + ls) == TrimEndAll([l]) + TrimEndAll(ls);
    DropEmptyAppend(TrimEndAll([l]), TrimEndAll(ls));
  }

  /** Repairing keeps the prepared lines: only empty lines are removed. */
  lemma {:induction false} RepairKept(ls: seq<string>, seps: seq<string>)
    requires ls != [] ==> |seps| == |ls| - 1
    ensures KeptLines(Repair(ls, seps).0) == KeptLines(ls)
    decreases |ls|
  {
    if |ls| > 2 && seps[0] == "\r" && ls[1] == [] && seps[1] == "\n" {
      var ms, mseps := [ls[0]] + ls[2..], ["\r\n"] + seps[2..];
      assert Repair(ls, seps) == Repair(ms, mseps);
      RepairKept(ms, mseps);
      assert KeptLines(ls) == KeptLines([ls[0]]) + KeptLines(ls[2..]) by {
        KeptDropsEmpty(ls);
      }
      KeptLinesCons(ls[0], ls[2..]);
    } else if |ls| > 1 {
      var t := Repair(ls[1..], seps[1..]);
      assert Repair(ls, seps).0 == [ls[0]] + t.0;
      RepairKept(ls[1..], seps[1..]);
      KeptLinesCons(ls[0], t.0);
      assert KeptLines(ls) == KeptLines([ls[0]]) + KeptLines(ls[1..]) by {
        assert ls == [ls[0]] + ls[1..];
        KeptLinesCons(ls[0], ls[1..]);
      }
    }
  }

  /** An empty second line contributes no kept line. */
  lemma KeptDropsEmpty(ls: seq<string>)
    requires |ls| > 2 && ls[1] == []
    ensures KeptLines(ls) == KeptLines([ls[0]]) + KeptLines(ls[2..])
  {
    assert ls == [ls[0]] + ([ls[1]] + ls[2..]);
    KeptLinesCons(ls[0], [ls[1]] + ls[2..]);
    KeptLinesCons(ls[1], ls[2..]);
    assert KeptLines([ls[1]]) == [];
  }

  /** A join of more than one line, split after the first line. */
  lemma MixedUnfold(ls: seq<string>, seps: seq<string>)
    requires |ls| > 1 && |seps| == |ls| - 1
    ensures JoinMixed(ls, seps) == ls[0] + (seps[0] + JoinMixed(ls[1..], seps[1..]))
    ensures Join(ls, "\n") == ls[0] + ("\n" + Join(ls[1..], "\n"))
  {
    var x := JoinMixed(ls[1..], seps[1..]);
    var y := Join(ls[1..], "\n");
    assert JoinMixed(ls, seps) == ls[0] + seps[0] + x;
    assert Join(ls, "\n") == ls[0] + "\n" + y;
    Assoc(ls[0], seps[0], x);
    Assoc(ls[0], "\n", y);
  }

  lemma Assoc(a: string, b: string, c: string)
    ensures a + b + c == a + (b + c)
  {
  }

  /** One line, its ending and the rest of the file: the line is kept and the ending becomes
      LF. */
  lemma MixedStep(l: string, sep: string, rest: string, restLf: string)
    requires NoPairSplit(l, sep + rest) && NoPairSplit(sep, rest)
    requires '\r' !in l && NormalizeLineEnds(sep) == "\n" && NormalizeLineEnds(rest) == restLf
    ensures NormalizeLineEnds(l + (sep + rest)) == l + ("\n" + restLf)
  {
    NormalizeLineEndsAppend(l, sep + rest);
    NormalizeLineEndsAppend(sep, rest);
    CollapseCrLfNoCr(l);
    ReplaceCharAbsent(l, '\r', '\n');
  }

  /** A file that mixes line endings is prepared into its lines, each trimmed at the end,
      with the empty ones dropped and the order kept. */
  lemma PrepareLinesJoinMixed(ls: seq<string>, seps: seq<string>)
    requires MixedLines(ls, seps)
    ensures PrepareLines(JoinMixed(ls, seps)) == DropEmpty(TrimEndAll(ls))
  {
    var r := Repair(ls, seps);
    RepairLines(ls, seps);
    RepairJoin(ls, seps);
    RepairKept(ls, seps);
    NormalizeJoinMixed(r.0, r.1);
    var text := Join(r.0, "\n");
    if r.0 != [] {
      JoinNoCr(r.0, "\n");
      CollapseCrLfNoCr(text);
      ReplaceCharAbsent(text, '\r', '\n');
    }
    assert NormalizeLineEnds(JoinMixed(ls, seps)) == NormalizeLineEnds(text);
    PrepareLinesJoinLfAny(r.0);
  }

  /** The lines and endings of a worked file: a blank line, spaces at both ends of a line,
      a CR LF and a lone CR. */
  lemma ExampleJoinMixed()
    ensures JoinMixed(["a", "", " b ", "c", "d"], ["\n", "\n", "\r\n", "\r"]) == "a\n\n b \r\nc\rd"
  {
    var ls, seps := ["a", "", " b ", "c", "d"], ["\n", "\n", "\r\n", "\r"];
    assert JoinMixed(ls[3..], seps[3..]) == "c\rd";
    assert JoinMixed(ls[2..], seps[2..]) == " b \r\nc\rd";
    assert JoinMixed(ls[1..], seps[1..]) == "\n b \r\nc\rd";
  }

  lemma ExampleTrimEnd()
    ensures TrimEndAll(["a", "", " b ", "c", "d"]) == ["a", "", " b", "c", "d"]
  {
    var ls := ["a", "", " b ", "c", "d"];
    var ts := TrimEndAll(ls);
    assert ts[2] == " b" by {
      assert " b "[..2] == " b";
    }
    assert ts[0] == "a" && ts[1] == "" && ts[3] == "c" && ts[4] == "d";
  }

  lemma ExampleDropEmpty()
    ensures DropEmpty(["a", "", " b", "c", "d"]) == ["a", " b", "c", "d"]
  {
    var ts := ["a", "", " b", "c", "d"];
    assert ts[1..] == ["", " b", "c", "d"];
    assert ts[2..] == [" b", "c", "d"];
    assert ts[3..] == ["c", "d"];
    assert ts[4..] == ["d"];
  }

  /** The worked file is prepared into its four non-empty lines, trimmed at the end. */
  lemma PrepareLinesExample()
    ensures PrepareLines("a\n\n b \r\nc\rd") == ["a", " b", "c", "d"]
  {
    var ls, seps := ["a", "", " b ", "c", "d"], ["\n", "\n", "\r\n", "\r"];
    assert MixedLines(ls, seps);
    PrepareLinesJoinMixed(ls, seps);
    ExampleJoinMixed();
    ExampleTrimEnd();
    ExampleDropEmpty();
  }

  lemma CrBlankJoin()
    ensures JoinMixed(["a", "", "b", "c"], ["\r", "\r", "\n"]) == "a\r\rb\nc"
  {
    var ls, seps := ["a", "", "b", "c"], ["\r", "\r", "\n"];
    assert JoinMixed(ls[2..], seps[2..]) == "b\nc";
    assert JoinMixed(ls[1..], seps[1..]) == "\rb\nc";
  }

  lemma CrBlankKept()
    ensures DropEmpty(TrimEndAll(["a", "", "b", "c"])) == ["a", "b", "c"]
  {
    var ls := ["a", "", "b", "c"];
    assert TrimEndAll(ls) == ls;
    assert ls[1..] == ["", "b", "c"] && ls[2..] == ["b", "c"] && ls[3..] == ["c"];
  }

  /** A lone CR before a blank line, then another lone CR: the blank line is dropped. */
  lemma PrepareLinesCrBlankExample()
    ensures PrepareLines("a\r\rb\nc") == ["a", "b", "c"]
  {
    var ls, seps := ["a", "", "b", "c"], ["\r", "\r", "\n"];
    assert MixedLines(ls, seps);
    PrepareLinesJoinMixed(ls, seps);
    CrBlankJoin();
    CrBlankKept();
  }

  /** A hidden pair: a lone CR, an empty line and an LF ending read as a single break. */
  lemma HiddenPairExample()
    ensures !NoHiddenPair(["a", "", "b"], ["\r", "\n"])
    ensures JoinMixed(["a", "", "b"], ["\r", "\n"]) == "a\r\nb"
    ensures NormalizeLineEnds("a\r\nb") == "a\nb"
  {
    var ls, seps := ["a", "", "b"], ["\r", "\n"];
    assert JoinMixed(ls[1..], seps[1..]) == "\nb";
    assert seps[0] == "\r" && ls[1] == [] && seps[1] == "\n";
    var ms, mseps := ["a", "b"], ["\r\n"];
    assert MixedLines(ms, mseps);
    NormalizeJoinMixed(ms, mseps);
    assert JoinMixed(ms, mseps) == "a\r\nb";
    assert Join(ms, "\n") == "a\nb";
  }

  lemma {:induction false} CollapseCrLfNoLf(s: string)
    requires '\n' !in s
    ensures CollapseCrLf(s) == s
  {
    if s != [] {
      assert '\n' !in s[1..];
      CollapseCrLfNoLf(s[1..]);
    }
  }

  /** The same holds for a file with Windows line endings. */
  lemma PrepareLinesJoinCrLf(ls: seq<string>)
    requires forall k :: 0 <= k < |ls| ==> CleanLine(ls[k])
    ensures PrepareLines(Join(ls, "\r\n")) == ls
  {
    CollapseCrLfJoin(ls);
    var text := Join(ls, "\n");
    JoinCleanNoCr(ls, "\n");
    CollapseCrLfNoCr(text);
    ReplaceCharAbsent(text, '\r', '\n');
    assert NormalizeLineEnds(Join(ls, "\r\n")) == NormalizeLineEnds(text);
    PrepareLinesJoinLf(ls);
  }

  // ----- findHeaderIndex -----

  /** A header line names both the product-name column and the order-quantity column. */
  predicate IsHeaderLine(l: string) {
    Contains(l, "商品名") && Contains(l, "発注数量")
  }

  /** `h` is the header position the parser uses: the first header line, or 0 when no line
      qualifies. */
  predicate HeaderChoice(lines: seq<string>, h: nat) {
    || (h < |lines| && IsHeaderLine(lines[h]) && forall j :: 0 <= j < h ==> !IsHeaderLine(lines[j]))
    || (h == 0 && forall j :: 0 <= j < |lines| ==> !IsHeaderLine(lines[j]))
  }

  /** There is exactly one header choice. */
  lemma HeaderChoiceUnique(lines: seq<string>, a: nat, b: nat)
    requires HeaderChoice(lines, a) && HeaderChoice(lines, b)
    ensures a == b
  {
  }

  /** `findHeaderIndex`: the first line that names both columns, else 0. */
  method FindHeaderIndex(lines: seq<string>) returns (idx: nat)
    ensures HeaderChoice(lines, idx)
  {
    for i := 0 to |lines|
      invariant forall j :: 0 <= j < i ==> !IsHeaderLine(lines[j])
    {
      if IsHeaderLine(lines[i]) {
        return i;
      }
    }
    return 0;
  }

  // ----- rows -----

  /** `cols[c] ?? ""`. */
  function FieldAt(cols: seq<string>, c: nat): string {
    if c < |cols| then cols[c] else ""
  }

  /** The record after the first `n` header fields are written, in order, so a later
      duplicate header field overwrites an earlier one. */
  function RowUpTo(header: seq<string>, cols: seq<string>, n: nat): Row
    requires n <= |header|
  {
    if n == 0 then map[] else RowUpTo(header, cols, n - 1)[header[n - 1] := FieldAt(cols, n - 1)]
  }

  function RowOf(header: seq<string>, cols: seq<string>): Row {
    RowUpTo(header, cols, |header|)
  }

  /** The record has exactly the header fields as keys, and each key holds the column of its
      last occurrence in the header (an empty string past the end of the line). */
  lemma RowUpToSpec(header: seq<string>, cols: seq<string>, n: nat)
    requires n <= |header|
    ensures RowUpTo(header, cols, n).Keys == set c | 0 <= c < n :: header[c]
    ensures forall c :: 0 <= c < n && (forall d :: c < d < n ==> header[d] != header[c]) ==>
      RowUpTo(header, cols, n)[header[c]] == FieldAt(cols, c)
  {
    RowUpToKeys(header, cols, n);
    forall c | 0 <= c < n && (forall d :: c < d < n ==> header[d] != header[c])
      ensures RowUpTo(header, cols, n)[header[c]] == FieldAt(cols, c)
    {
      RowUpToValue(header, cols, n, c);
    }
  }

  lemma {:induction false} RowUpToKeys(header: seq<string>, cols: seq<string>, n: nat)
    requires n <= |header|
    ensures RowUpTo(header, cols, n).Keys == set c | 0 <= c < n :: header[c]
  {
    if n > 0 {
      RowUpToKeys(header, cols, n - 1);
      assert (set c | 0 <= c < n :: header[c]) == (set c | 0 <= c < n - 1 :: header[c]) + {header[n - 1]};
    }
  }

  lemma {:induction false} RowUpToValue(header: seq<string>, cols: seq<string>, n: nat, c: nat)
    requires c < n <= |header|
    requires forall d :: c < d < n ==> header[d] != header[c]
    ensures header[c] in RowUpTo(header, cols, n) && RowUpTo(header, cols, n)[header[c]] == FieldAt(cols, c)
  {
    if c < n - 1 {
      RowUpToValue(header, cols, n - 1, c);
      assert header[n - 1] != header[c];
    }
  }

  lemma RowOfSpec(header: seq<string>, cols: seq<string>)
    ensures RowOf(header, cols).Keys == set c | 0 <= c < |header| :: header[c]
    ensures forall c :: 0 <= c < |header| && (forall d :: c < d < |header| ==> header[d] != header[c]) ==>
      RowOf(header, cols)[header[c]] == FieldAt(cols, c)
  {
    RowUpToSpec(header, cols, |header|);
  }

  /** The inner loop of `parseCsvFile`: one record from the header fields and a line's fields. */
  method BuildRow(header: seq<string>, cols: seq<string>) returns (row: Row)
    ensures row == RowOf(header, cols)
  {
    row := map[];
    for c := 0 to |header|
      invariant row == RowUpTo(header, cols, c)
    {
      row := row[header[c] := if c < |cols| then cols[c] else ""];
    }
  }

  /** The outer loop of `parseCsvFile`: one record per data line, in order. */
  method DataRows(header: seq<string>, data: seq<string>) returns (rows: seq<Row>)
    ensures |rows| == |data|
    ensures forall j :: 0 <= j < |data| ==> rows[j] == RowOf(header, LineFields(data[j]))
  {
    rows := [];
    for i := 0 to |data|
      invariant |rows| == i
      invariant forall j :: 0 <= j < i ==> rows[j] == RowOf(header, LineFields(data[j]))
    {
      var cols := SplitCsvLine(data[i]);
      var row := BuildRow(header, cols);
      rows := rows + [row];
    }
  }

  /** `h` is the header position, and `rows` holds one record per later line, keyed by the
      header line's fields. */
  predicate RowsAfter(lines: seq<string>, h: nat, rows: seq<Row>) {
    && HeaderChoice(lines, h) && h < |lines|
    && |rows| == |lines| - h - 1
    && forall j :: 0 <= j < |rows| ==> rows[j] == RowOf(LineFields(lines[h]), LineFields(lines[h + 1 + j]))
  }

  /** The part of `parseCsvFile` after line preparation: find the header, then one record
      per later line. */
  method RowsFromLines(rawLines: seq<string>) returns (rows: seq<Row>)
    requires rawLines != []
    ensures exists h: nat :: RowsAfter(rawLines, h, rows)
  {
    var headerIndex := FindHeaderIndex(rawLines);
    var lines := rawLines[headerIndex..];
    var header := SplitCsvLine(lines[0]);
    rows := DataRows(header, lines[1..]);
    assert RowsAfter(rawLines, headerIndex, rows);
  }

  /** The text part of `parseCsvFile`: no records for a text without non-blank lines,
      otherwise one record per line after the header line. */
  method ParseRows(text: string) returns (rows: seq<Row>)
    ensures PrepareLines(text) == [] ==> rows == []
    ensures PrepareLines(text) != [] ==> exists h: nat :: RowsAfter(PrepareLines(text), h, rows)
  {
    var rawLines := PrepareLines(text);
    if |rawLines| == 0 {
      return [];
    }
    rows := RowsFromLines(rawLines);
  }

  /** The records are determined by the text: the header position cannot be chosen two ways. */
  lemma RowsAfterUnique(lines: seq<string>, h1: nat, h2: nat, r1: seq<Row>, r2: seq<Row>)
    requires RowsAfter(lines, h1, r1) && RowsAfter(lines, h2, r2)
    ensures r1 == r2
  {
    HeaderChoiceUnique(lines, h1, h2);
  }
}
