/**
 * The CSV export side of the converter: `enforce_excel_cell_string_limit`
 * and `export_csv_data_to_disk` without the file handle. The source value is
 * reshaped into a header list and a sequence of rows, which `csv.DictWriter`
 * (restval '', extrasaction 'ignore') writes as lines of text cells.
 */
module CsvExport {
  import opened Wrappers
  import opened Values

  /** The spreadsheet cell ceiling the exporter trims to. */
  const ExcelCellLimit: int := 32750

  function Min(a: int, b: int): int
  {
    if a < b then a else b
  }

  /** A limit of 3 or less is raised to 4, leaving room for "...". */
  function EffectiveLimit(limit: int): int
  {
    if limit <= 3 then 4 else limit
  }

  /**
   * `enforce_excel_cell_string_limit`: a string longer than the effective
   * limit becomes its first `limit - 3` characters followed by "...".
   */
  function Trim(s: string, limit: int): (r: string)
    ensures |r| == Min(|s|, EffectiveLimit(limit))
    ensures r == s <==> |s| <= EffectiveLimit(limit)
    ensures r != s ==> r[..|r| - 3] == s[..|r| - 3] && r[|r| - 3..] == "..."
  {
    var eff := EffectiveLimit(limit);
    if |s| > eff then s[..eff - 3] + "..." else s
  }

  /** How the csv writer renders a value: `None` as the empty string, anything else as `str()`. */
  function CellText(v: Value): string
  {
    if v.Null? then "" else Stringify(v)
  }

  /** A line holding the text of each value; `writeheader()` writes the header names this way. */
  function TextLine(headers: seq<Value>): seq<string>
  {
    seq(|headers|, j requires 0 <= j < |headers| => CellText(headers[j]))
  }

  /** The trimming step of `export_csv_data_to_disk` on one dict: every value becomes `str(val)`, trimmed. */
  function TrimEntries(entries: Record): Record
  {
    seq(|entries|, i requires 0 <= i < |entries| =>
      (entries[i].0, Str(Trim(Stringify(entries[i].1), ExcelCellLimit))))
  }

  /** `writerow(item)`: the item's value under each header, '' where it has none; other keys are ignored. */
  function ProjectRow(headers: seq<Value>, entries: Record): seq<string>
  {
    seq(|headers|, j requires 0 <= j < |headers| =>
      match Lookup(entries, headers[j])
      case Some(v) => CellText(v)
      case None => "")
  }

  /** The line written for one dict item. */
  function RowLine(headers: seq<Value>, entries: Record, trim: bool): seq<string>
  {
    ProjectRow(headers, if trim then TrimEntries(entries) else entries)
  }

  predicate AllDicts(items: seq<Value>)
  {
    forall i :: 0 <= i < |items| ==> items[i].Dict?
  }

  /** The index of the first item that is not a dict, or the number of items. */
  function FirstNonDict(items: seq<Value>): (k: nat)
    ensures k <= |items|
    ensures AllDicts(items[..k])
    ensures k < |items| ==> !items[k].Dict?
  {
    if items == [] || !items[0].Dict? then 0
    else
      var k := 1 + FirstNonDict(items[1..]);
      assert forall i :: 1 <= i < k ==> items[..k][i] == items[1..][..k - 1][i - 1];
      k
  }

  function BodyLines(headers: seq<Value>, items: seq<Value>, trim: bool): seq<seq<string>>
    requires AllDicts(items)
  {
    seq(|items|, i requires 0 <= i < |items| => RowLine(headers, items[i].entries, trim))
  }

  /** What one export call ends with. */
  datatype ExportOutcome =
    | NothingToExport
      /** every line was written */
    | Written(lines: seq<seq<string>>)
      /** an exception was raised after these lines were written */
    | Aborted(lines: seq<seq<string>>, error: PyError)

  /** One empty line per written row: what `writerow` writes when there are no header names. */
  function BlankLines(n: nat): seq<seq<string>>
  {
    seq(n, _ => [])
  }

  /**
   * The write loop of `export_csv_data_to_disk`: the header line, then one line
   * per item; a value that cannot be iterated raises `TypeError`. An item
   * that is not a dict raises `AttributeError` at `.items()` when trimming,
   * and at `.get()`, which `writerow` calls once per header name. With no
   * header names and no trimming neither is called: every item, dict or
   * not, writes an empty line.
   */
  function WriteOut(headers: seq<Value>, items: Option<seq<Value>>, trim: bool): (r: ExportOutcome)
    ensures !r.NothingToExport? && r.lines != [] && r.lines[0] == TextLine(headers)
    ensures r.Written? <==> items.Some? && ((headers == [] && !trim) || AllDicts(items.value))
    ensures r.Written? ==> |r.lines| == |items.value| + 1
    ensures r.Aborted? ==> (r.error == TypeError <==> items.None?)
    ensures items.Some? ==> |r.lines| <= |items.value| + 1
  {
    if items.None? then Aborted([TextLine(headers)], TypeError)
    else if headers == [] && !trim then
      assert |TextLine(headers)| == 0;
      Written(BlankLines(|items.value| + 1))
    else
      var k := FirstNonDict(items.value);
      var lines := [TextLine(headers)] + BodyLines(headers, items.value[..k], trim);
      if k < |items.value| then Aborted(lines, AttributeError)
      else
        assert items.value[..k] == items.value;
        Written(lines)
  }

  /** What `for x in v` visits: a list's items, a dict's keys, a string's characters; nothing else is iterable. */
  function Iterate(v: Value): Option<seq<Value>>
  {
    match v
    case List(items) => Some(items)
    case Dict(entries) => Some(Keys(entries))
    case Str(s) => Some(seq(|s|, i requires 0 <= i < |s| => Str([s[i]])))
    case _ => None
  }

  /** `{headers[0]: k, headers[1]: v}`: equal header names make one entry holding `v`. */
  function PairDict(h0: Value, k: Value, h1: Value, v: Value): Record
  {
    Set(Set([], h0, k), h1, v)
  }

  /** The flat-dict case of `export_csv_data_to_disk`: every pair after the first becomes a two-entry row. */
  function FlatRows(h0: Value, h1: Value, rest: Record): seq<Value>
  {
    seq(|rest|, i requires 0 <= i < |rest| => Dict(PairDict(h0, rest[i].0, h1, rest[i].1)))
  }

  /** The header names and the items the write loop visits (`None`: the value cannot be iterated). */
  datatype Shaped = Shaped(headers: seq<Value>, items: Option<seq<Value>>)

  /**
   * The reshaping in `export_csv_data_to_disk`. Given headers leave the value as it is. Otherwise a dict
   * whose first value is a dict gives that dict's keys as headers and its
   * values as rows; any other dict gives its first pair as the two headers
   * and its later pairs as rows; a list takes its headers from iterating its
   * first element. With no headers found, `writeheader` raises `TypeError`.
   */
  function ShapeForExport(data: Value, headers: Option<seq<Value>>): (r: Result<Shaped, PyError>)
    requires Truthy(data)
    ensures r.Failure? ==> r.error == TypeError && headers.None?
    ensures headers.Some? ==> r.Success? && r.value.headers == headers.value
    ensures data.Dict? ==> r.Success? && r.value.items.Some?
    ensures headers.None? && data.List? && r.Success? ==> r.value.items == Some(data.items)
  {
    if headers.Some? then Success(Shaped(headers.value, Iterate(data)))
    else
      match data
      case Dict(es) =>
        if es[0].1.Dict? then Success(Shaped(Keys(es[0].1.entries), Some(ValuesOf(es))))
        else Success(Shaped([es[0].0, es[0].1], Some(FlatRows(es[0].0, es[0].1, es[1..]))))
      case List(items) =>
        (match Iterate(items[0])
         case None => Failure(TypeError)
         case Some(keys) => Success(Shaped(keys, Some(items))))
      case _ => Failure(TypeError)
  }

  /**
   * `export_csv_data_to_disk`. Header names that are lists or dicts make
   * `writeheader` raise `TypeError` before anything is written.
   */
  function Export(data: Value, headers: Option<seq<Value>>, trim: bool): (r: ExportOutcome)
    ensures r.NothingToExport? <==> !Truthy(data)
  {
    if !Truthy(data) then NothingToExport
    else
      match ShapeForExport(data, headers)
      case Failure(e) => Aborted([], e)
      case Success(sh) =>
        if !AllHashable(sh.headers) then Aborted([], TypeError)
        else WriteOut(sh.headers, sh.items, trim)
  }

  // ---------------------------------------------------------------------
  // The source's loops
  // ---------------------------------------------------------------------

  /** The flat-dict loop of `export_csv_data_to_disk`: the vertical table built from a flat dict with a `count` flag. */
  method ShapeFlatDict(es: Record) returns (headers: seq<Value>, rows: seq<Value>)
    requires es != []
    ensures headers == [es[0].0, es[0].1]
    ensures |rows| == |es| - 1
    ensures forall i :: 0 <= i < |rows| ==> rows[i] == Dict(PairDict(headers[0], es[i + 1].0, headers[1], es[i + 1].1))
  {
    var count := 0;
    var temp: seq<Value> := [];
    headers := [];
    var i := 0;
    while i < |es|
      invariant 0 <= i <= |es|
      invariant count == if i == 0 then 0 else 1
      invariant i > 0 ==> headers == [es[0].0, es[0].1]
      invariant |temp| == if i == 0 then 0 else i - 1
      invariant forall m :: 0 <= m < |temp| ==> temp[m] == Dict(PairDict(es[0].0, es[m + 1].0, es[0].1, es[m + 1].1))
    {
      var (k, v) := es[i];
      if count == 0 {
        headers := [k, v];
        count := count + 1;
      } else {
        temp := temp + [Dict(PairDict(headers[0], k, headers[1], v))];
      }
      i := i + 1;
    }
    rows := temp;
  }

  /**
   * The write loop of `export_csv_data_to_disk`: write the header line, then each item, trimming its
   * values in place first when asked to.
   */
  method WriteCsv(headers: seq<Value>, items: Option<seq<Value>>, trim: bool) returns (out: ExportOutcome)
    ensures out == WriteOut(headers, items, trim)
  {
    var lines := [TextLine(headers)];
    if items.None? {
      return Aborted(lines, TypeError);
    }
    var xs := items.value;
    ghost var blank := headers == [] && !trim;
    if blank {
      assert |TextLine(headers)| == 0;
      assert BlankLines(1)[0] == [];
    }
    var i := 0;
    while i < |xs|
      invariant 0 <= i <= |xs|
      invariant blank ==> lines == BlankLines(i + 1)
      invariant !blank ==> AllDicts(xs[..i]) && lines == [TextLine(headers)] + BodyLines(headers, xs[..i], trim)
    {
      var item := xs[i];
      if trim && !item.Dict? {
        // `item.items()`
        assert FirstNonDict(xs) == i by {
          FirstNonDictIs(xs, i);
        }
        return Aborted(lines, AttributeError);
      }
      if headers != [] && !item.Dict? {
        // `item.get(headers[0], '')` inside `writerow`
        assert FirstNonDict(xs) == i by {
          FirstNonDictIs(xs, i);
        }
        return Aborted(lines, AttributeError);
      }
      // A non-dict gets this far only with no header names, where nothing is looked up in it.
      var entries := if item.Dict? then item.entries else [];
      if trim {
        var j := 0;
        while j < |entries|
          invariant 0 <= j <= |entries| == |item.entries|
          invariant forall n :: 0 <= n < j ==> entries[n] == TrimEntries(item.entries)[n]
          invariant forall n :: j <= n < |entries| ==> entries[n] == item.entries[n]
        {
          var (key, val) := entries[j];
          // The keys of a dict are distinct, so `item[key]` is the j-th entry.
          entries := entries[j := (key, Str(Trim(Stringify(val), ExcelCellLimit)))];
          j := j + 1;
        }
        assert entries == TrimEntries(item.entries);
      }
      lines := lines + [ProjectRow(headers, entries)];
      if blank {
        assert |ProjectRow(headers, entries)| == 0;
        BlankLinesGrow(i + 1);
      } else {
        assert xs[..i + 1] == xs[..i] + [item];
        assert lines == [TextLine(headers)] + BodyLines(headers, xs[..i + 1], trim);
      }
      i := i + 1;
    }
    if !blank {
      assert xs[..i] == xs;
      FirstNonDictIs(xs, |xs|);
    }
    out := Written(lines);
  }

  lemma BlankLinesGrow(n: nat)
    ensures BlankLines(n) + [[]] == BlankLines(n + 1)
  {
  }

  /** The first non-dict is the one after a run of dicts. */
  lemma {:induction false} FirstNonDictIs(xs: seq<Value>, i: nat)
    requires i <= |xs| && AllDicts(xs[..i]) && (i < |xs| ==> !xs[i].Dict?)
    ensures FirstNonDict(xs) == i
  {
    if i > 0 {
      assert xs[..i][0] == xs[0];
      var ys := xs[1..][..i - 1];
      forall m | 0 <= m < |ys| ensures ys[m].Dict? {
        assert xs[..i][m + 1] == xs[m + 1];
      }
      FirstNonDictIs(xs[1..], i - 1);
    }
  }

  /** `export_csv_data_to_disk` step by step, from its guard to the last row. */
  method ExportCsvData(data: Value, headers: Option<seq<Value>>, trim: bool) returns (out: ExportOutcome)
    ensures out == Export(data, headers, trim)
  {
    if !Truthy(data) {
      return NothingToExport;
    }
    // `copy.deepcopy(data)`: values are immutable here, so the copy is the value itself.
    var toExport := data;
    var fieldnames: seq<Value>;
    var items: Option<seq<Value>>;
    if headers.Some? {
      fieldnames := headers.value;
      items := Iterate(toExport);
    } else if toExport.Dict? {
      var es := toExport.entries;
      if es[0].1.Dict? {
        fieldnames := Keys(es[0].1.entries);
        items := Some(ValuesOf(es));
      } else {
        var rows;
        fieldnames, rows := ShapeFlatDict(es);
        assert rows == FlatRows(es[0].0, es[0].1, es[1..]);
        items := Some(rows);
      }
    } else if toExport.List? {
      var keys := Iterate(toExport.items[0]);
      if keys.None? {
        return Aborted([], TypeError);
      }
      fieldnames := keys.value;
      items := Some(toExport.items);
    } else {
      return Aborted([], TypeError);
    }
    assert ShapeForExport(data, headers) == Success(Shaped(fieldnames, items));
    if !AllHashable(fieldnames) {
      return Aborted([], TypeError);
    }
    out := WriteCsv(fieldnames, items, trim);
  }
}
