/**
 * What survives a trip through a CSV file: the table `export_csv_data_to_disk`
 * writes for a list of dicts, read back by `csv.DictReader` and the tail of
 * `import_csv_from_disk`.
 */
module RoundTrip {
  import opened Wrappers
  import opened Values
  import opened CsvImport
  import opened CsvImportFacts
  import opened CsvExport
  import opened CsvExportFacts

  /**
   * A value that reads back as itself: a boolean (written "True"/"False",
   * turned back by `str2bool`) or a string that does not spell a boolean.
   * Numbers and `None` come back as strings, so they are not in this class.
   */
  predicate Restorable(v: Value)
  {
    v.Bool? || (v.Str? && Str2Bool(v.s).None?)
  }

  /** A record whose keys are the given field names, in order, and whose values all read back as themselves. */
  predicate RestorableRecord(names: seq<string>, r: Record)
  {
    && |r| == |names|
    && (forall j :: 0 <= j < |r| ==> r[j].0 == Str(names[j]))
    && (forall j :: 0 <= j < |r| ==> Restorable(r[j].1))
  }

  /** The field names written as the header line are written back as themselves. */
  lemma NamesLine(names: seq<string>)
    ensures TextLine(StrCells(names)) == names
  {
  }

  /** `str2bool` undoes `str()` on a boolean. */
  lemma BoolTextRestores(b: bool)
    ensures Str2Bool(CellText(Bool(b))) == Some(b)
  {
    var t := CellText(Bool(b));
    if b {
      assert t == "True";
      assert UpperChar('t') == 'T';
      assert IsCasingOf(t, "true");
    } else {
      assert t == "False";
      assert UpperChar('f') == 'F';
      assert IsCasingOf(t, "false");
    }
  }

  /** Writing a restorable value and coercing the text read back gives the value. */
  lemma CellRestores(v: Value)
    requires Restorable(v)
    ensures CoerceCell(Str(CellText(v))) == v
  {
    if v.Bool? {
      BoolTextRestores(v.b);
    }
  }

  /** Every line read against the field names, none skipped. */
  function ReadEach(names: seq<string>, lines: seq<seq<string>>): seq<Record>
  {
    seq(|lines|, i requires 0 <= i < |lines| => ReadRecord(names, lines[i]))
  }

  lemma ReadEachCons(names: seq<string>, lines: seq<seq<string>>)
    requires lines != []
    ensures ReadEach(names, lines) == [ReadRecord(names, lines[0])] + ReadEach(names, lines[1..])
  {
    var tail := lines[1..];
    forall i | 1 <= i < |lines| ensures ReadEach(names, lines)[i] == ReadEach(names, tail)[i - 1] {
      assert tail[i - 1] == lines[i];
    }
  }

  /** The reader skips no line when none is blank: one record per line, in order. */
  lemma {:induction false} ReadNoBlankLines(names: seq<string>, lines: seq<seq<string>>)
    requires forall i :: 0 <= i < |lines| ==> lines[i] != []
    ensures ReadDataRows(names, lines) == ReadEach(names, lines)
    decreases |lines|
  {
    if lines != [] {
      ReadNoBlankLines(names, lines[1..]);
      ReadEachCons(names, lines);
    }
  }

  /** One written data line, read back against the field names and coerced, is the record it came from. */
  lemma RecordRestores(names: seq<string>, r: Record)
    requires Distinct(names) && RestorableRecord(names, r)
    ensures CoerceRecord(ReadRecord(names, TextLine(ValuesOf(r)))) == r
  {
    var row := TextLine(ValuesOf(r));
    ReadRecordFields(names, row);
    var read := ReadRecord(names, row);
    forall j | 0 <= j < |r| ensures CoerceRecord(read)[j] == r[j] {
      CellRestores(r[j].1);
    }
  }

  /** Distinct field names make distinct keys. */
  lemma NamesAreUniqueKeys(names: seq<string>, r: Record)
    requires Distinct(names) && RestorableRecord(names, r)
    ensures Keys(r) == StrCells(names) && UniqueKeys(r)
  {
  }

  /** The list of dicts the records make. */
  function Dicts(records: seq<Record>): seq<Value>
  {
    seq(|records|, i requires 0 <= i < |records| => Dict(records[i]))
  }

  /** The data lines written for the records: each record's values, in order. */
  function DataTexts(records: seq<Record>): seq<seq<string>>
  {
    seq(|records|, i requires 0 <= i < |records| => TextLine(ValuesOf(records[i])))
  }

  /** Exporting the records writes the field names, then one line of values per record. */
  lemma ExportedLines(names: seq<string>, records: seq<Record>)
    requires Distinct(names)
    requires records != [] && forall i :: 0 <= i < |records| ==> RestorableRecord(names, records[i])
    ensures Export(List(Dicts(records)), None, false) == Written([names] + DataTexts(records))
  {
    var items := Dicts(records);
    var hs := StrCells(names);
    forall i | 0 <= i < |items| ensures Keys(items[i].entries) == hs && UniqueKeys(items[i].entries) {
      NamesAreUniqueKeys(names, records[i]);
    }
    UniformListExport(items, hs);
    NamesLine(names);
  }

  /** Reading the written lines back, with the first as field names, and coercing gives the records. */
  lemma ReadBack(names: seq<string>, records: seq<Record>)
    requires names != [] && Distinct(names)
    requires forall i :: 0 <= i < |records| ==> RestorableRecord(names, records[i])
    ensures CoerceRows(ReadRows(None, [names] + DataTexts(records))) == records
    ensures !HasShortRow(FieldNames(None, [names] + DataTexts(records)), DataLines(None, [names] + DataTexts(records)))
  {
    var body := DataTexts(records);
    var lines := [names] + body;
    assert FieldNames(None, lines) == names;
    assert DataLines(None, lines) == body;
    assert forall i :: 0 <= i < |body| ==> |body[i]| == |names|;
    ReadNoBlankLines(names, body);
    var read := ReadRows(None, lines);
    forall i | 0 <= i < |records| ensures CoerceRows(read)[i] == records[i] {
      RecordRestores(names, records[i]);
    }
  }

  /**
   * Round trip. A non-empty list of dicts that all have the same distinct
   * string keys in the same order, holding only booleans and strings that do
   * not spell a boolean, is exported without headers or trimming; reading
   * the written lines back, with the header line as field names, and running
   * the import tail (as written, or as documented) gives the dicts back, a
   * single dict on its own.
   */
  lemma ExportThenImport(names: seq<string>, records: seq<Record>)
    requires names != [] && Distinct(names)
    requires records != [] && forall i :: 0 <= i < |records| ==> RestorableRecord(names, records[i])
    ensures var out := Export(List(Dicts(records)), None, false);
      && out.Written?
      && ImportAsWritten(Some(ReadRows(None, out.lines))) == Success(Collapse(records))
      && NormalizeImport(Some(ReadRows(None, out.lines))) == Some(Collapse(records))
  {
    var lines := [names] + DataTexts(records);
    ExportedLines(names, records);
    ReadBack(names, records);
    ImportRaisesIffShortRow(None, lines);
  }
}
