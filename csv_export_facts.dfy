/** What the exporter promises about the tables it writes. */
module CsvExportFacts {
  import opened Wrappers
  import opened Values
  import opened CsvExport

  /** Trimming an already trimmed string changes nothing. */
  lemma TrimIdempotent(s: string, limit: int)
    ensures Trim(Trim(s, limit), limit) == Trim(s, limit)
  {
  }

  /**
   * A 20-character string trimmed to 10 keeps its first 7 characters and
   * ends in "..."; a limit of 2 behaves as a limit of 4.
   */
  lemma TrimExamples(s: string)
    requires |s| == 20
    ensures |Trim(s, 10)| == 10 && Trim(s, 10)[..7] == s[..7] && Trim(s, 10)[7..] == "..."
    ensures Trim(s, 2) == Trim(s, 4) == [s[0]] + "..."
  {
  }

  /** The text written for header `h` of a row holding `entries`, stated independently of the write loop. */
  function ExpectedCell(h: Value, entries: Record, trim: bool): string
  {
    match Lookup(entries, h)
    case None => ""
    case Some(v) => if trim then Trim(Stringify(v), ExcelCellLimit) else CellText(v)
  }

  lemma {:induction false} LookupTrimEntries(entries: Record, h: Value)
    ensures Lookup(TrimEntries(entries), h) ==
      match Lookup(entries, h)
      case None => None
      case Some(v) => Some(Str(Trim(Stringify(v), ExcelCellLimit)))
  {
    if entries != [] {
      assert TrimEntries(entries)[1..] == TrimEntries(entries[1..]);
      LookupTrimEntries(entries[1..], h);
    }
  }

  /**
   * A written row has one cell per header, in header order: the row's
   * value (as `str()`, trimmed, when trimming) or '' where the row has no
   * such key. Keys not among the headers appear nowhere.
   */
  lemma RowLineCells(headers: seq<Value>, entries: Record, trim: bool)
    ensures |RowLine(headers, entries, trim)| == |headers|
    ensures forall j :: 0 <= j < |headers| ==> RowLine(headers, entries, trim)[j] == ExpectedCell(headers[j], entries, trim)
  {
    forall j | 0 <= j < |headers|
      ensures RowLine(headers, entries, trim)[j] == ExpectedCell(headers[j], entries, trim)
    {
      if trim {
        LookupTrimEntries(entries, headers[j]);
      }
    }
  }

  /** When every item is a dict, the header line and one line per item are written. */
  lemma WriteAllDicts(headers: seq<Value>, xs: seq<Value>, trim: bool)
    requires AllDicts(xs)
    ensures WriteOut(headers, Some(xs), trim) == Written([TextLine(headers)] + BodyLines(headers, xs, trim))
  {
    if headers == [] && !trim {
      var lines := [TextLine(headers)] + BodyLines(headers, xs, trim);
      assert forall i :: 0 <= i < |lines| ==> |lines[i]| == 0;
      assert lines == BlankLines(|xs| + 1);
    } else {
      FirstNonDictIs(xs, |xs|);
      assert xs[..|xs|] == xs;
    }
  }

  /** Every cell of a trimmed data line fits the spreadsheet limit. */
  lemma BodyLinesFit(hs: seq<Value>, xs: seq<Value>)
    requires AllDicts(xs)
    ensures var body := BodyLines(hs, xs, true);
      forall i, j :: 0 <= i < |body| && 0 <= j < |body[i]| ==> |body[i][j]| <= ExcelCellLimit
  {
    var body := BodyLines(hs, xs, true);
    forall i, j | 0 <= i < |body| && 0 <= j < |body[i]| ensures |body[i][j]| <= ExcelCellLimit {
      RowLineCells(hs, xs[i].entries, true);
    }
  }

  /**
   * With trimming on, no cell after the header line is longer than the
   * spreadsheet limit, whatever the data and however the export ends.
   */
  lemma TrimmedCellsFit(data: Value, headers: Option<seq<Value>>)
    ensures var out := Export(data, headers, true);
      !out.NothingToExport? ==>
        forall i, j :: 1 <= i < |out.lines| && 0 <= j < |out.lines[i]| ==> |out.lines[i][j]| <= ExcelCellLimit
  {
    var out := Export(data, headers, true);
    if Truthy(data) && ShapeForExport(data, headers).Success? {
      var sh := ShapeForExport(data, headers).value;
      if AllHashable(sh.headers) && sh.items.Some? {
        var xs := sh.items.value;
        var k := FirstNonDict(xs);
        var body := BodyLines(sh.headers, xs[..k], true);
        BodyLinesFit(sh.headers, xs[..k]);
        FitAfterHeader(out.lines, TextLine(sh.headers), body);
      }
    }
  }

  /** The cells after the header line are the cells of the data lines. */
  lemma FitAfterHeader(lines: seq<seq<string>>, head: seq<string>, body: seq<seq<string>>)
    requires lines == [head] + body
    requires forall i, j :: 0 <= i < |body| && 0 <= j < |body[i]| ==> |body[i][j]| <= ExcelCellLimit
    ensures forall i, j :: 1 <= i < |lines| && 0 <= j < |lines[i]| ==> |lines[i][j]| <= ExcelCellLimit
  {
    assert forall i :: 1 <= i < |lines| ==> lines[i] == body[i - 1];
  }

  /**
   * A list of dicts, no headers given: the headers are the first dict's
   * keys in order, and each dict gives one line, in order, with one cell per
   * header.
   */
  lemma ListExport(items: seq<Value>, trim: bool)
    requires items != [] && AllDicts(items)
    requires AllHashable(Keys(items[0].entries))
    ensures var hs := Keys(items[0].entries); var out := Export(List(items), None, trim);
      && out.Written?
      && |out.lines| == |items| + 1
      && out.lines[0] == TextLine(hs)
      && (forall i :: 1 <= i < |out.lines| ==> |out.lines[i]| == |hs|)
      && (forall i, j :: 0 <= i < |items| && 0 <= j < |hs| ==>
            out.lines[i + 1][j] == ExpectedCell(hs[j], items[i].entries, trim))
  {
    var hs := Keys(items[0].entries);
    WriteAllDicts(hs, items, trim);
    forall i | 0 <= i < |items| {
      RowLineCells(hs, items[i].entries, trim);
    }
  }

  /**
   * Dicts that all share one key order are written back as their own
   * values in that order, under those keys as headers.
   */
  lemma UniformListExport(items: seq<Value>, hs: seq<Value>)
    requires items != [] && AllDicts(items) && AllHashable(hs)
    requires forall i :: 0 <= i < |items| ==> Keys(items[i].entries) == hs && UniqueKeys(items[i].entries)
    ensures var out := Export(List(items), None, false);
      && out.Written?
      && |out.lines| == |items| + 1
      && out.lines[0] == TextLine(hs)
      && forall i :: 0 <= i < |items| ==> out.lines[i + 1] == TextLine(ValuesOf(items[i].entries))
  {
    ListExport(items, false);
    var out := Export(List(items), None, false);
    forall i | 0 <= i < |items| ensures out.lines[i + 1] == TextLine(ValuesOf(items[i].entries)) {
      var e := items[i].entries;
      forall j | 0 <= j < |hs| ensures out.lines[i + 1][j] == CellText(e[j].1) {
        LookupAt(e, j);
      }
    }
  }

  /**
   * A dict of dicts, no headers given: the headers are the first nested
   * dict's keys, and each nested dict gives one line, in outer-key order.
   */
  lemma NestedDictExport(es: Record, trim: bool)
    requires es != [] && forall i :: 0 <= i < |es| ==> es[i].1.Dict?
    requires AllHashable(Keys(es[0].1.entries))
    ensures var hs := Keys(es[0].1.entries); var out := Export(Dict(es), None, trim);
      && out.Written?
      && |out.lines| == |es| + 1
      && out.lines[0] == TextLine(hs)
      && (forall i :: 1 <= i < |out.lines| ==> |out.lines[i]| == |hs|)
      && (forall i, j :: 0 <= i < |es| && 0 <= j < |hs| ==>
            out.lines[i + 1][j] == ExpectedCell(hs[j], es[i].1.entries, trim))
  {
    var hs := Keys(es[0].1.entries);
    var xs := ValuesOf(es);
    NestedDictWritten(es, trim);
    BodyCells(hs, xs, trim);
    assert forall i :: 0 <= i < |es| ==> xs[i].entries == es[i].1.entries;
  }

  /** The dict-of-dicts shape goes through the writer without an error. */
  lemma NestedDictWritten(es: Record, trim: bool)
    requires es != [] && forall i :: 0 <= i < |es| ==> es[i].1.Dict?
    requires AllHashable(Keys(es[0].1.entries))
    ensures var hs := Keys(es[0].1.entries);
      Export(Dict(es), None, trim) == Written([TextLine(hs)] + BodyLines(hs, ValuesOf(es), trim))
  {
    WriteAllDicts(Keys(es[0].1.entries), ValuesOf(es), trim);
  }

  /** Each data line holds, per header, the cell `RowLineCells` describes. */
  lemma BodyCells(hs: seq<Value>, xs: seq<Value>, trim: bool)
    requires AllDicts(xs)
    ensures var body := BodyLines(hs, xs, trim);
      && |body| == |xs|
      && (forall i :: 0 <= i < |xs| ==> |body[i]| == |hs|)
      && (forall i, j :: 0 <= i < |xs| && 0 <= j < |hs| ==> body[i][j] == ExpectedCell(hs[j], xs[i].entries, trim))
  {
    forall i | 0 <= i < |xs| {
      RowLineCells(hs, xs[i].entries, trim);
    }
  }

  /** The outer keys of a dict of dicts are not written anywhere: changing them changes nothing. */
  lemma NestedOuterKeysIgnored(es: Record, es': Record, trim: bool)
    requires es != [] && es[0].1.Dict?
    requires |es| == |es'| && forall i :: 0 <= i < |es| ==> es[i].1 == es'[i].1
    ensures Export(Dict(es), None, trim) == Export(Dict(es'), None, trim)
  {
    assert ValuesOf(es) == ValuesOf(es');
  }

  /** `{h0: k, h1: v}` with distinct header names holds both pairs, in order. */
  lemma PairDictDistinct(h0: Value, k: Value, h1: Value, v: Value)
    requires h0 != h1
    ensures PairDict(h0, k, h1, v) == [(h0, k), (h1, v)]
  {
    var r1 := Set([], h0, k);
    assert r1 == [(h0, k)];
    assert r1[1..] == [];
    assert Set(r1, h1, v) == [r1[0]] + Set(r1[1..], h1, v);
  }

  /** `{h: k, h: v}` holds only the later pair. */
  lemma PairDictSame(h: Value, k: Value, v: Value)
    ensures PairDict(h, k, h, v) == [(h, v)]
  {
    assert Set([], h, k) == [(h, k)];
  }

  /** One later pair of a flat dict, written under two distinct header names. */
  lemma FlatLine(h0: Value, h1: Value, k: Value, v: Value)
    requires h0 != h1
    ensures RowLine([h0, h1], PairDict(h0, k, h1, v), false) == [CellText(k), CellText(v)]
  {
    PairDictDistinct(h0, k, h1, v);
    var r := [(h0, k), (h1, v)];
    assert Lookup(r, h0) == Some(k);
    assert Lookup(r, h1) == Some(v) by {
      assert r[1..] == [(h1, v)];
    }
  }

  /** Each pair of a dict as a two-cell line. */
  function PairCells(es: Record): seq<seq<string>>
  {
    seq(|es|, i requires 0 <= i < |es| => [CellText(es[i].0), CellText(es[i].1)])
  }

  lemma PairCellsCons(es: Record)
    requires es != []
    ensures PairCells(es) == [[CellText(es[0].0), CellText(es[0].1)]] + PairCells(es[1..])
  {
    var rest := es[1..];
    forall i | 1 <= i < |es| ensures PairCells(es)[i] == PairCells(rest)[i - 1] {
      assert rest[i - 1] == es[i];
    }
  }

  /** The data lines of a flat dict with distinct header names: the later pairs, one per line. */
  lemma FlatBody(h0: Value, h1: Value, rest: Record)
    requires h0 != h1
    ensures BodyLines([h0, h1], FlatRows(h0, h1, rest), false) == PairCells(rest)
  {
    var body := BodyLines([h0, h1], FlatRows(h0, h1, rest), false);
    forall i | 0 <= i < |rest| ensures body[i] == PairCells(rest)[i] {
      FlatLine(h0, h1, rest[i].0, rest[i].1);
    }
  }

  /**
   * A flat dict, no headers given: its first pair becomes the two headers
   * and every later pair one two-cell line, so the output is the dict's
   * pairs, one per line, in order, and holds `len(dict)` lines.
   */
  lemma FlatDictExport(es: Record)
    requires es != [] && !es[0].1.Dict?
    requires Hashable(es[0].0) && Hashable(es[0].1) && es[0].0 != es[0].1
    ensures var out := Export(Dict(es), None, false);
      && out.Written?
      && |out.lines| == |es|
      && forall i :: 0 <= i < |es| ==> out.lines[i] == [CellText(es[i].0), CellText(es[i].1)]
  {
    FlatDictWritten(es);
    FlatLines(es);
  }

  /** The header line and the data lines of a flat dict: its pairs, one per line, in order. */
  lemma FlatLines(es: Record)
    requires es != [] && es[0].0 != es[0].1
    ensures [TextLine([es[0].0, es[0].1])] + BodyLines([es[0].0, es[0].1], FlatRows(es[0].0, es[0].1, es[1..]), false)
      == PairCells(es)
  {
    FlatBody(es[0].0, es[0].1, es[1..]);
    PairCellsCons(es);
    assert TextLine([es[0].0, es[0].1]) == [CellText(es[0].0), CellText(es[0].1)];
  }

  /** The flat-dict shape goes through the writer without an error. */
  lemma FlatDictWritten(es: Record)
    requires es != [] && !es[0].1.Dict?
    requires Hashable(es[0].0) && Hashable(es[0].1)
    ensures var hs := [es[0].0, es[0].1];
      Export(Dict(es), None, false) == Written([TextLine(hs)] + BodyLines(hs, FlatRows(es[0].0, es[0].1, es[1..]), false))
  {
    var hs := [es[0].0, es[0].1];
    var xs := FlatRows(es[0].0, es[0].1, es[1..]);
    assert ShapeForExport(Dict(es), None) == Success(Shaped(hs, Some(xs)));
    WriteAllDicts(hs, xs, false);
  }

  /**
   * A flat dict whose first key equals its first value: the literal
   * `{headers[0]: k, headers[1]: v}` keeps only `v`, so both cells of each
   * later line hold the value and the keys are lost.
   */
  lemma FlatDictSameHeaders(es: Record)
    requires |es| > 1 && !es[0].1.Dict?
    requires Hashable(es[0].0) && es[0].0 == es[0].1
    ensures var out := Export(Dict(es), None, false);
      && out.Written?
      && |out.lines| == |es|
      && forall i :: 1 <= i < |es| ==> out.lines[i] == [CellText(es[i].1), CellText(es[i].1)]
  {
    FlatDictWritten(es);
    SameHeaderLines(es);
  }

  /** The lines of a flat dict whose first key equals its first value. */
  lemma SameHeaderLines(es: Record)
    requires es != [] && es[0].0 == es[0].1
    ensures var h := es[0].0;
      var lines := [TextLine([h, h])] + BodyLines([h, h], FlatRows(h, h, es[1..]), false);
      |lines| == |es| && forall i :: 1 <= i < |es| ==> lines[i] == [CellText(es[i].1), CellText(es[i].1)]
  {
    var h := es[0].0;
    var body := BodyLines([h, h], FlatRows(h, h, es[1..]), false);
    SameHeaderBody(h, es[1..]);
    ValueLinesShift([TextLine([h, h])] + body, TextLine([h, h]), body, es);
  }

  /** Lines after a header line, one per later pair of `es`, each holding that pair's value twice. */
  lemma ValueLinesShift(lines: seq<seq<string>>, head: seq<string>, body: seq<seq<string>>, es: Record)
    requires es != [] && lines == [head] + body && |body| == |es| - 1
    requires forall i :: 0 <= i < |body| ==> body[i] == [CellText(es[1..][i].1), CellText(es[1..][i].1)]
    ensures |lines| == |es| && forall i :: 1 <= i < |es| ==> lines[i] == [CellText(es[i].1), CellText(es[i].1)]
  {
    forall i | 1 <= i < |es| ensures lines[i] == [CellText(es[i].1), CellText(es[i].1)] {
      assert lines[i] == body[i - 1];
      assert es[1..][i - 1] == es[i];
    }
  }

  /** Under two equal header names each later pair's line holds its value twice. */
  lemma SameHeaderBody(h: Value, rest: Record)
    ensures var body := BodyLines([h, h], FlatRows(h, h, rest), false);
      |body| == |rest| && forall i :: 0 <= i < |rest| ==> body[i] == [CellText(rest[i].1), CellText(rest[i].1)]
  {
    var body := BodyLines([h, h], FlatRows(h, h, rest), false);
    forall i | 0 <= i < |rest| ensures body[i] == [CellText(rest[i].1), CellText(rest[i].1)] {
      PairDictSame(h, rest[i].0, rest[i].1);
      assert Lookup([(h, rest[i].1)], h) == Some(rest[i].1);
    }
  }

  /** A flat dict whose first value is a list cannot have it as a header: `TypeError`, nothing written. */
  lemma FlatDictUnhashable(es: Record, trim: bool)
    requires es != [] && es[0].1.List?
    ensures Export(Dict(es), None, trim) == Aborted([], TypeError)
  {
    assert !Hashable([es[0].0, es[0].1][1]);
  }

  /**
   * A dict exported with given headers is not reshaped: iterating it yields
   * its keys, so the header line is written and the first row raises, at
   * `.items()` when trimming and otherwise at the first header's `.get()`.
   */
  lemma DictWithHeadersFails(es: Record, hs: seq<Value>, trim: bool)
    requires es != [] && Hashable(es[0].0) && AllHashable(hs)
    requires hs != [] || trim
    ensures Export(Dict(es), Some(hs), trim) == Aborted([TextLine(hs)], AttributeError)
  {
    FirstNonDictIs(Keys(es), 0);
  }

  /**
   * With an empty header list and no trimming, nothing is looked up in an
   * item, so a dict's keys are written as one empty line each, after the
   * empty header line.
   */
  lemma DictWithNoHeaderNames(es: Record)
    requires es != []
    ensures Export(Dict(es), Some([]), false) == Written(BlankLines(|es| + 1))
  {
  }

  /**
   * A list whose first item is an empty dict has no header names. Without
   * trimming every item, dict or not, is written as an empty line; with
   * trimming the export fails exactly when some item is not a dict.
   */
  lemma EmptyFirstDictList(items: seq<Value>)
    requires items != [] && items[0] == Dict([])
    ensures Export(List(items), None, false) == Written(BlankLines(|items| + 1))
    ensures Export(List(items), None, true).Aborted? <==> !AllDicts(items)
    ensures Export(List(items), None, true).Aborted? ==> Export(List(items), None, true).error == AttributeError
  {
    assert Iterate(items[0]) == Some([]) by {
      assert |Keys([])| == 0;
    }
    if AllDicts(items) {
      WriteAllDicts([], items, true);
    } else {
      assert FirstNonDict(items) < |items|;
    }
  }

  /** `[{}, 5]` without headers or trimming: three empty lines and no error. */
  lemma EmptyDictThenNumber(items: seq<Value>)
    requires items == [Dict([]), Int(5)]
    ensures Export(List(items), None, false) == Written([[], [], []])
    ensures Export(List(items), None, true) == Aborted([[], []], AttributeError)
  {
    EmptyFirstDictList(items);
    assert BlankLines(3) == [[], [], []];
    assert FirstNonDict(items) == 1 by {
      assert FirstNonDict(items[1..]) == 0;
    }
    assert items[..1] == [Dict([])];
    assert BodyLines([], [Dict([])], true) == [[]];
  }

  /** With trimming on, a `None` value is written as the text "None" instead of an empty cell. */
  lemma TrimWritesNoneAsText(items: seq<Value>)
    requires items == [Dict([(Str("a"), Null)])]
    ensures Export(List(items), None, false) == Written([["a"], [""]])
    ensures Export(List(items), None, true) == Written([["a"], ["None"]])
  {
    var hs := [Str("a")];
    var entries := [(Str("a"), Null)];
    assert Keys(entries) == hs;
    assert ShapeForExport(List(items), None) == Success(Shaped(hs, Some(items)));
    assert Stringify(Str("a")) == "a";
    assert TextLine(hs) == ["a"];
    assert FirstNonDict(items) == 1 by {
      assert items[1..] == [];
    }
    assert items[..1] == items;
    assert Lookup(entries, Str("a")) == Some(Null);
    assert RowLine(hs, entries, false) == [""];
    assert BodyLines(hs, items, false) == [[""]];
    var trimmed := [(Str("a"), Str("None"))];
    assert Trim("None", ExcelCellLimit) == "None";
    assert TrimEntries(entries) == trimmed;
    assert Lookup(trimmed, Str("a")) == Some(Str("None"));
    assert RowLine(hs, entries, true) == ["None"];
    assert BodyLines(hs, items, true) == [["None"]];
  }

  /** {"k1": {"x": 1, "y": 2}, "k2": {"x": 3, "y": 4}}: headers x, y and two rows; k1 and k2 are not written. */
  lemma NestedDictExample(es: Record)
    requires es == [(Str("k1"), Dict([(Str("x"), Int(1)), (Str("y"), Int(2))])),
                    (Str("k2"), Dict([(Str("x"), Int(3)), (Str("y"), Int(4))]))]
    ensures Export(Dict(es), None, false) == Written([["x", "y"], ["1", "2"], ["3", "4"]])
  {
    var d1 := [(Str("x"), Int(1)), (Str("y"), Int(2))];
    var d2 := [(Str("x"), Int(3)), (Str("y"), Int(4))];
    var hs := [Str("x"), Str("y")];
    assert Keys(d1) == hs;
    assert ValuesOf(es) == [Dict(d1), Dict(d2)];
    NestedDictWritten(es, false);
    NestedExampleLines(hs, d1, d2);
  }

  lemma NestedExampleLines(hs: seq<Value>, d1: Record, d2: Record)
    requires hs == [Str("x"), Str("y")]
    requires d1 == [(Str("x"), Int(1)), (Str("y"), Int(2))] && d2 == [(Str("x"), Int(3)), (Str("y"), Int(4))]
    ensures [TextLine(hs)] + BodyLines(hs, [Dict(d1), Dict(d2)], false) == [["x", "y"], ["1", "2"], ["3", "4"]]
  {
    assert TextLine(hs) == ["x", "y"];
    WriteAllDicts(hs, [Dict(d1), Dict(d2)], false);
    assert BodyLines(hs, [Dict(d1), Dict(d2)], false) == [RowLine(hs, d1, false), RowLine(hs, d2, false)];
    DigitLine(hs, d1, 1, 2);
    DigitLine(hs, d2, 3, 4);
  }

  /** The line written for `{"x": a, "y": b}` under headers x, y, for one-digit `a` and `b`. */
  lemma DigitLine(hs: seq<Value>, d: Record, a: nat, b: nat)
    requires a < 10 && b < 10
    requires hs == [Str("x"), Str("y")] && d == [(Str("x"), Int(a)), (Str("y"), Int(b))]
    ensures RowLine(hs, d, false) == [[Digit(a)], [Digit(b)]]
  {
    assert Lookup(d, Str("x")) == Some(Int(a));
    assert Lookup(d, Str("y")) == Some(Int(b)) by {
      assert d[1..] == [(Str("y"), Int(b))];
    }
    assert CellText(Int(a)) == [Digit(a)];
    assert CellText(Int(b)) == [Digit(b)];
  }

  /** {"color": "red", "size": "large"}: headers color, red and the single row size, large. */
  lemma FlatDictExample(es: Record)
    requires es == [(Str("color"), Str("red")), (Str("size"), Str("large"))]
    ensures Export(Dict(es), None, false) == Written([["color", "red"], ["size", "large"]])
  {
    FlatDictExport(es);
  }
}
