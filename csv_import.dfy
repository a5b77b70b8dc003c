/**
 * The CSV import side of the converter: how `csv.DictReader` turns text rows
 * into dicts, and the tail of `import_csv_from_disk`, which turns the strings
 * "true"/"false" (any casing) back into booleans and collapses a one-row
 * result into that single record.
 */
module CsvImport {
  import opened Wrappers
  import opened Values

  /**
   * `str2bool`: `True` for every casing of "true", `False` for every casing of
   * "false", and the implicit `None` for every other string.
   */
  function Str2Bool(s: string): (r: Option<bool>)
    ensures r == Some(true) <==> IsCasingOf(s, "true")
    ensures r == Some(false) <==> IsCasingOf(s, "false")
  {
    LowerStrIsWord(s, "true");
    LowerStrIsWord(s, "false");
    if LowerStr(s) == "true" then Some(true)
    else if LowerStr(s) == "false" then Some(false)
    else None
  }

  /** The boolean pass's test in `import_csv_from_disk` on a non-list value: `v.lower() in ['true', 'false']`. */
  predicate IsBoolText(s: string)
  {
    LowerStr(s) in ["true", "false"]
  }

  // ---------------------------------------------------------------------
  // csv.DictReader with restkey = restval = None
  // ---------------------------------------------------------------------

  /** The pairs `zip(fieldnames, row)` produces: as many as the shorter side. */
  function ZipCells(names: seq<string>, row: seq<string>): Record
  {
    var n := if |names| < |row| then |names| else |row|;
    seq(n, i requires 0 <= i < n => (Str(names[i]), Str(row[i])))
  }

  function StrCells(cells: seq<string>): seq<Value>
  {
    seq(|cells|, i requires 0 <= i < |cells| => Str(cells[i]))
  }

  /** `d[key] = restval` for every field name the row did not reach. */
  function NullFields(names: seq<string>): Record
  {
    seq(|names|, i requires 0 <= i < |names| => (Str(names[i]), Null))
  }

  /**
   * One non-blank row read against the field names: `dict(zip(names, row))`;
   * surplus cells go, as a list, under the key `None`; field names the row
   * does not reach are set to `None`.
   */
  function ReadRecord(names: seq<string>, row: seq<string>): Record
  {
    var d := SetAll([], ZipCells(names, row));
    if |names| < |row| then Set(d, Null, List(StrCells(row[|names|..])))
    else if |row| < |names| then SetAll(d, NullFields(names[|row|..]))
    else d
  }

  /** The data rows, blank rows skipped, each read against the field names. */
  function ReadDataRows(names: seq<string>, lines: seq<seq<string>>): seq<Record>
  {
    if lines == [] then []
    else if lines[0] == [] then ReadDataRows(names, lines[1..])
    else [ReadRecord(names, lines[0])] + ReadDataRows(names, lines[1..])
  }

  /** The field names: the given headers, or else the file's first row. */
  function FieldNames(headers: Option<seq<string>>, lines: seq<seq<string>>): seq<string>
  {
    if headers.Some? then headers.value else if lines == [] then [] else lines[0]
  }

  function DataLines(headers: Option<seq<string>>, lines: seq<seq<string>>): seq<seq<string>>
  {
    if headers.Some? then lines else if lines == [] then [] else lines[1..]
  }

  /** `list(csv.DictReader(f, fieldnames=headers))` over the parsed rows of the file. */
  function ReadRows(headers: Option<seq<string>>, lines: seq<seq<string>>): seq<Record>
  {
    ReadDataRows(FieldNames(headers, lines), DataLines(headers, lines))
  }

  predicate Distinct(names: seq<string>)
  {
    forall i, j :: 0 <= i < j < |names| ==> names[i] != names[j]
  }

  /**
   * With distinct field names a record has one entry per field name, in
   * order: the row's cell, or `None` past the end of a short row; a long
   * row's surplus cells follow as a list under the key `None`.
   */
  lemma ReadRecordFields(names: seq<string>, row: seq<string>)
    requires Distinct(names)
    ensures var r := ReadRecord(names, row);
      && |r| == |names| + (if |names| < |row| then 1 else 0)
      && (forall i :: 0 <= i < |names| ==> r[i] == (Str(names[i]), if i < |row| then Str(row[i]) else Null))
      && (|names| < |row| ==> r[|names|] == (Null, List(StrCells(row[|names|..]))))
  {
    var z: Record := ZipCells(names, row);
    if |names| < |row| {
      LongRecord(names, row);
    } else if |row| < |names| {
      ShortRecord(names, row);
      ShortFields(names, row, ReadRecord(names, row));
    } else {
      ZipFresh(names, row);
    }
  }

  /** The zipped pairs followed by the `None` fill-in: one entry per field name, in order. */
  lemma ShortFields(names: seq<string>, row: seq<string>, r: Record)
    requires |row| < |names| && r == ZipCells(names, row) + NullFields(names[|row|..])
    ensures |r| == |names|
    ensures forall i :: 0 <= i < |names| ==> r[i] == (Str(names[i]), if i < |row| then Str(row[i]) else Null)
  {
    var nf: Record := NullFields(names[|row|..]);
    forall i | |row| <= i < |names| ensures r[i] == (Str(names[i]), Null) {
      assert r[i] == nf[i - |row|];
      assert names[|row|..][i - |row|] == names[i];
    }
  }

  /** Distinct field names: `dict(zip(names, row))` holds the zipped pairs in order. */
  lemma ZipFresh(names: seq<string>, row: seq<string>)
    requires Distinct(names)
    ensures SetAll([], ZipCells(names, row)) == ZipCells(names, row)
  {
    var z: Record := ZipCells(names, row);
    ZipUnique(names, row);
    assert [] + z == z;
    SetAllFresh([], z);
  }

  lemma ZipUnique(names: seq<string>, row: seq<string>)
    requires Distinct(names)
    ensures UniqueKeys(ZipCells(names, row))
  {
    var z: Record := ZipCells(names, row);
    forall i, j | 0 <= i < j < |z| ensures z[i].0 != z[j].0 {
      assert z[i].0 == Str(names[i]) && z[j].0 == Str(names[j]);
    }
  }

  /** A long row: the zipped pairs, then the surplus cells under `None`. */
  lemma LongRecord(names: seq<string>, row: seq<string>)
    requires Distinct(names) && |names| < |row|
    ensures ReadRecord(names, row) == ZipCells(names, row) + [(Null, List(StrCells(row[|names|..])))]
  {
    var z: Record := ZipCells(names, row);
    ZipFresh(names, row);
    assert forall i :: 0 <= i < |z| ==> z[i].0 != Null;
    SetAbsent(z, Null, List(StrCells(row[|names|..])));
  }

  /** A short row: the zipped pairs, then `None` under every field name the row did not reach. */
  lemma ShortRecord(names: seq<string>, row: seq<string>)
    requires Distinct(names) && |row| < |names|
    ensures ReadRecord(names, row) == ZipCells(names, row) + NullFields(names[|row|..])
  {
    var z: Record := ZipCells(names, row);
    var nf: Record := NullFields(names[|row|..]);
    ZipFresh(names, row);
    ShortRowKeys(names, row);
    SetAllFresh(z, nf);
  }

  /** The entries of a short row before its `None` fill-in: one per field name, in order. */
  lemma ShortRowKeys(names: seq<string>, row: seq<string>)
    requires Distinct(names) && |row| < |names|
    ensures var zn := ZipCells(names, row) + NullFields(names[|row|..]);
      |zn| == |names| && (forall i :: 0 <= i < |zn| ==> zn[i].0 == Str(names[i])) && UniqueKeys(zn)
  {
    var z: Record := ZipCells(names, row);
    var nf: Record := NullFields(names[|row|..]);
    var zn: Record := z + nf;
    forall i | 0 <= i < |zn| ensures zn[i].0 == Str(names[i]) {
      if i >= |z| {
        assert zn[i] == nf[i - |z|];
      }
    }
  }

  /** A row at least as long as the field names yields only strings, and a list of surplus strings. */
  lemma FullRowHasText(names: seq<string>, row: seq<string>)
    requires |names| <= |row|
    ensures forall e :: e in ReadRecord(names, row) ==> e.1.Str? || e.1.List?
  {
    var z: Record := ZipCells(names, row);
    var d: Record := SetAll([], z);
    assert forall e :: e in d ==> e.1.Str? by {
      forall e | e in d ensures e.1.Str? {
        assert e in z;
        var i :| 0 <= i < |z| && z[i] == e;
      }
    }
    if |names| < |row| {
      var x := (Null, List(StrCells(row[|names|..])));
      assert forall e :: e in Set(d, x.0, x.1) ==> e in d || e == x;
    }
  }

  lemma NullFieldsLast(names: seq<string>, n: nat)
    requires n < |names|
    ensures NullFields(names[n..])[|names| - n - 1] == (Str(names[|names| - 1]), Null)
  {
    assert names[n..][|names| - n - 1] == names[|names| - 1];
  }

  /** A row shorter than the field names leaves `None` under the last field name. */
  lemma ShortRowHasNull(names: seq<string>, row: seq<string>)
    requires |row| < |names|
    ensures (Str(names[|names| - 1]), Null) in ReadRecord(names, row)
  {
    var d: Record := SetAll([], ZipCells(names, row));
    var nf: Record := NullFields(names[|row|..]);
    assert ReadRecord(names, row) == SetAll(d, nf);
    var last := nf[|nf| - 1];
    NullFieldsLast(names, |row|);
    SetAllLast(d, nf);
    var found := Lookup(SetAll(d, nf), last.0);
    assert found == Some(last.1);
  }

  // ---------------------------------------------------------------------
  // The boolean pass and the singleton collapse of `import_csv_from_disk`
  // ---------------------------------------------------------------------

  /** What `record[k] = str2bool(v)` leaves in a cell that does not raise. */
  function CoerceCell(v: Value): Value
  {
    if v.Str? && Str2Bool(v.s).Some? then Bool(Str2Bool(v.s).value) else v
  }

  /**
   * The boolean pass over one record: same keys in the same order; exactly
   * the strings spelling "true" or "false" in some casing change, and they
   * become the boolean they spell.
   */
  function CoerceRecord(r: Record): (r': Record)
    ensures Keys(r') == Keys(r)
    ensures forall i :: 0 <= i < |r| ==>
      (r'[i].1 != r[i].1 <==> r[i].1.Str? && (IsCasingOf(r[i].1.s, "true") || IsCasingOf(r[i].1.s, "false")))
    ensures forall i :: 0 <= i < |r| && r'[i].1 != r[i].1 ==> r'[i].1 == Bool(IsCasingOf(r[i].1.s, "true"))
  {
    seq(|r|, i requires 0 <= i < |r| => (r[i].0, CoerceCell(r[i].1)))
  }

  function CoerceRows(rows: seq<Record>): (rows': seq<Record>)
    ensures |rows'| == |rows|
    ensures forall i :: 0 <= i < |rows| ==> rows'[i] == CoerceRecord(rows[i])
  {
    seq(|rows|, i requires 0 <= i < |rows| => CoerceRecord(rows[i]))
  }

  /** A value whose `.lower()` raises `AttributeError`: neither a list nor a string. */
  predicate RaisesOnLower(v: Value)
  {
    !v.List? && !v.Str?
  }

  predicate HasNonText(rows: seq<Record>)
  {
    exists i, j :: 0 <= i < |rows| && 0 <= j < |rows[i]| && RaisesOnLower(rows[i][j].1)
  }

  /** What the importer returns: one record, or a list of them. */
  datatype Imported = Single(record: Record) | Table(records: seq<Record>)

  /** The collapse in `import_csv_from_disk`: exactly one row collapses to that record; any other count, 0 included, stays a list. */
  function Collapse(rows: seq<Record>): (r: Imported)
    ensures r.Single? <==> |rows| == 1
    ensures r.Single? ==> r.record == rows[0]
    ensures r.Table? ==> r.records == rows
  {
    if |rows| == 1 then Single(rows[0]) else Table(rows)
  }

  /**
   * The tail of `import_csv_from_disk` as written. `None` data (empty file, or the reader
   * failed) reaches `len(data)` and raises `TypeError`; a cell that is
   * neither a list nor a string (the reader's `None` for a short row)
   * reaches `v.lower()` and raises `AttributeError`.
   */
  function ImportAsWritten(data: Option<seq<Record>>): Result<Imported, PyError>
  {
    if data.None? then Failure(TypeError)
    else if HasNonText(data.value) then Failure(AttributeError)
    else Success(Collapse(CoerceRows(data.value)))
  }

  /**
   * The tail of `import_csv_from_disk`, step by step: the records are
   * rewritten in place, cell by cell, then the result is collapsed.
   */
  method ImportCsvTail(data: Option<seq<Record>>) returns (r: Result<Imported, PyError>)
    ensures r == ImportAsWritten(data)
  {
    if data.None? {
      return Failure(TypeError);
    }
    var rows := data.value;
    var i := 0;
    while i < |rows|
      invariant 0 <= i <= |rows| == |data.value|
      invariant forall m :: 0 <= m < i ==> rows[m] == CoerceRecord(data.value[m])
      invariant forall m :: i <= m < |rows| ==> rows[m] == data.value[m]
      invariant forall m, n :: 0 <= m < i && 0 <= n < |data.value[m]| ==> !RaisesOnLower(data.value[m][n].1)
    {
      var record := rows[i];
      var j := 0;
      while j < |record|
        invariant 0 <= j <= |record| == |rows[i]|
        invariant forall n :: 0 <= n < j ==> record[n] == CoerceRecord(rows[i])[n]
        invariant forall n :: j <= n < |record| ==> record[n] == rows[i][n]
        invariant forall n :: 0 <= n < j ==> !RaisesOnLower(rows[i][n].1)
      {
        var (k, v) := record[j];
        if !v.List? {
          if !v.Str? {
            assert RaisesOnLower(data.value[i][j].1);
            return Failure(AttributeError);
          }
          if IsBoolText(v.s) {
            // The keys of a dict are distinct, so `record[k]` is the j-th entry.
            record := record[j := (k, Bool(Str2Bool(v.s).value))];
          }
        }
        j := j + 1;
      }
      assert record == CoerceRecord(rows[i]);
      rows := rows[i := record];
      i := i + 1;
    }
    assert rows == CoerceRows(data.value);
    if |rows| == 1 {
      r := Success(Single(rows[0]));
    } else {
      r := Success(Table(rows));
    }
  }

  /**
   * The tail as its documentation describes it: no data gives `None`, and
   * values that are not strings (the `None` of a short row) pass through.
   */
  function NormalizeImport(data: Option<seq<Record>>): (r: Option<Imported>)
    ensures r.None? <==> data.None?
    ensures r.Some? ==> (|data.value| == 1 <==> r.value.Single?)
    ensures r.Some? && r.value.Single? ==> Keys(r.value.record) == Keys(data.value[0])
    ensures r.Some? && r.value.Table? ==> |r.value.records| == |data.value|
  {
    if data.None? then None else Some(Collapse(CoerceRows(data.value)))
  }
}
