/** What the importer does with the rows the CSV reader produces, and where the tail as written fails. */
module CsvImportFacts {
  import opened Wrappers
  import opened Values
  import opened CsvImport

  /** Some non-blank data row is shorter than the field names. */
  predicate HasShortRow(names: seq<string>, lines: seq<seq<string>>)
  {
    exists i :: 0 <= i < |lines| && lines[i] != [] && |lines[i]| < |names|
  }

  lemma HasNonTextCons(r: Record, rest: seq<Record>)
    ensures HasNonText([r] + rest) <==>
      (exists j :: 0 <= j < |r| && RaisesOnLower(r[j].1)) || HasNonText(rest)
  {
    var rows := [r] + rest;
    if HasNonText(rows) {
      var i, j :| 0 <= i < |rows| && 0 <= j < |rows[i]| && RaisesOnLower(rows[i][j].1);
      if i > 0 {
        assert rows[i] == rest[i - 1];
      }
    }
    if HasNonText(rest) {
      var i, j :| 0 <= i < |rest| && 0 <= j < |rest[i]| && RaisesOnLower(rest[i][j].1);
      assert rows[i + 1] == rest[i];
    }
    if exists j :: 0 <= j < |r| && RaisesOnLower(r[j].1) {
      var j :| 0 <= j < |r| && RaisesOnLower(r[j].1);
      assert rows[0] == r;
    }
  }

  /** A record read from a row holds a value `.lower()` cannot take exactly when the row is short. */
  lemma RecordRaisesIffShort(names: seq<string>, row: seq<string>)
    ensures (exists j :: 0 <= j < |ReadRecord(names, row)| && RaisesOnLower(ReadRecord(names, row)[j].1))
      <==> |row| < |names|
  {
    var r := ReadRecord(names, row);
    if |row| < |names| {
      ShortRowHasNull(names, row);
      var j :| 0 <= j < |r| && r[j] == (Str(names[|names| - 1]), Null);
      assert RaisesOnLower(r[j].1);
    } else {
      FullRowHasText(names, row);
      forall j | 0 <= j < |r| ensures !RaisesOnLower(r[j].1) {
        assert r[j] in r;
      }
    }
  }

  /**
   * Over the reader's output, the boolean pass as written raises exactly
   * when some non-blank data row is shorter than the field names.
   */
  lemma {:induction false} ReaderRaisesIffShortRow(names: seq<string>, lines: seq<seq<string>>)
    ensures HasNonText(ReadDataRows(names, lines)) <==> HasShortRow(names, lines)
    decreases |lines|
  {
    if lines != [] {
      ReaderRaisesIffShortRow(names, lines[1..]);
      var rest := ReadDataRows(names, lines[1..]);
      assert HasShortRow(names, lines) <==>
        (lines[0] != [] && |lines[0]| < |names|) || HasShortRow(names, lines[1..]) by {
        if HasShortRow(names, lines) {
          var i :| 0 <= i < |lines| && lines[i] != [] && |lines[i]| < |names|;
          if i > 0 {
            assert lines[1..][i - 1] == lines[i];
          }
        }
        if HasShortRow(names, lines[1..]) {
          var i :| 0 <= i < |lines[1..]| && lines[1..][i] != [] && |lines[1..][i]| < |names|;
          assert lines[i + 1] == lines[1..][i];
        }
      }
      if lines[0] != [] {
        HasNonTextCons(ReadRecord(names, lines[0]), rest);
        RecordRaisesIffShort(names, lines[0]);
      }
    }
  }

  /**
   * The import tail as written fails on a file the reader parsed exactly
   * when some data row is short: the fill-in `None` reaches `v.lower()`.
   */
  lemma ImportRaisesIffShortRow(headers: Option<seq<string>>, lines: seq<seq<string>>)
    ensures ImportAsWritten(Some(ReadRows(headers, lines))).Failure?
      <==> HasShortRow(FieldNames(headers, lines), DataLines(headers, lines))
    ensures ImportAsWritten(Some(ReadRows(headers, lines))).Failure? ==>
      ImportAsWritten(Some(ReadRows(headers, lines))).error == AttributeError
  {
    ReaderRaisesIffShortRow(FieldNames(headers, lines), DataLines(headers, lines));
  }

  /**
   * Wherever the tail as written succeeds it returns what the documented
   * behaviour returns; it fails on exactly the `None` data and the data
   * holding a value that is neither a string nor a list.
   */
  lemma AsWrittenAgreesWithNormalize(data: Option<seq<Record>>)
    ensures ImportAsWritten(data).Success? <==> data.Some? && !HasNonText(data.value)
    ensures ImportAsWritten(data).Success? ==> NormalizeImport(data) == Some(ImportAsWritten(data).value)
  {
  }

  /** Finding: an empty or unreadable file raises `TypeError` instead of returning `None`. */
  lemma EmptyFileRaises()
    ensures ImportAsWritten(None) == Failure(TypeError)
    ensures NormalizeImport(None) == None
  {
  }

  /** Finding: a row shorter than the headers raises instead of keeping its `None` fill-in. */
  lemma ShortRowRaises(names: seq<string>, row: seq<string>)
    requires names == ["a", "b"] && row == ["x"]
    ensures ImportAsWritten(Some(ReadRows(Some(names), [row]))) == Failure(AttributeError)
    ensures NormalizeImport(Some(ReadRows(Some(names), [row])))
      == Some(Single([(Str("a"), Str("x")), (Str("b"), Null)]))
  {
    ShortRowKeepsNone(names, row);
    var n := NormalizeImport(Some(ReadRows(Some(names), [row])));
    assert !IsCasingOf("x", "true") && !IsCasingOf("x", "false");
    assert n.value.record == [(Str("a"), Str("x")), (Str("b"), Null)];
  }

  /**
   * For any short data row, the tail as written raises, while the
   * documented behaviour returns the one record with `None` in every field
   * the row did not reach, and the row's cells in the others.
   */
  lemma ShortRowKeepsNone(names: seq<string>, row: seq<string>)
    requires Distinct(names) && row != [] && |row| < |names|
    ensures ImportAsWritten(Some(ReadRows(Some(names), [row]))) == Failure(AttributeError)
    ensures var n := NormalizeImport(Some(ReadRows(Some(names), [row])));
      && n.Some? && n.value.Single?
      && |n.value.record| == |names|
      && (forall i :: 0 <= i < |names| ==> n.value.record[i].0 == Str(names[i]))
      && (forall i :: |row| <= i < |names| ==> n.value.record[i].1 == Null)
      && (forall i :: 0 <= i < |row| ==> n.value.record[i].1 == CoerceCell(Str(row[i])))
  {
    assert [row][0] != [] && |[row][0]| < |names|;
    assert HasShortRow(names, [row]);
    ImportRaisesIffShortRow(Some(names), [row]);
    ReadRecordFields(names, row);
    ReadOneLine(names, row);
  }

  /** One non-blank line is read as one record. */
  lemma ReadOneLine(names: seq<string>, row: seq<string>)
    requires row != []
    ensures ReadDataRows(names, [row]) == [ReadRecord(names, row)]
  {
    assert [row][1..] == [];
    assert ReadDataRows(names, [row]) == [ReadRecord(names, row)] + ReadDataRows(names, []);
  }

  /** "TRUE" is a casing of "true", so `str2bool` accepts it. */
  lemma UpperTrue()
    ensures IsCasingOf("TRUE", "true")
  {
    assert UpperChar('t') == 'T' && UpperChar('r') == 'R' && UpperChar('u') == 'U' && UpperChar('e') == 'E';
    assert "TRUE"[0] == 'T' && "TRUE"[1] == 'R' && "TRUE"[2] == 'U' && "TRUE"[3] == 'E';
  }

  /**
   * A file of a header line and one data row, read without given headers,
   * imports as that single record with its boolean text converted.
   */
  lemma OneRowFileIsSingleRecord(names: seq<string>, row: seq<string>)
    requires names == ["a", "b", "c"] && row == ["1", "TRUE", "x"]
    ensures var data := Some(ReadRows(None, [names, row]));
      && ImportAsWritten(data) == Success(Single([(Str("a"), Str("1")), (Str("b"), Bool(true)), (Str("c"), Str("x"))]))
      && NormalizeImport(data) == Some(Single([(Str("a"), Str("1")), (Str("b"), Bool(true)), (Str("c"), Str("x"))]))
  {
    var r := [(Str("a"), Str("1")), (Str("b"), Str("TRUE")), (Str("c"), Str("x"))];
    var expected := [(Str("a"), Str("1")), (Str("b"), Bool(true)), (Str("c"), Str("x"))];
    OneRowFileReads(names, row);
    OneRowCoerces();
    assert !HasNonText([r]);
    assert CoerceRows([r]) == [expected];
  }

  /** A header line and one full data row read as that row's cells zipped with the header names. */
  lemma HeaderAndOneRow(names: seq<string>, row: seq<string>)
    requires Distinct(names) && row != [] && |row| == |names|
    ensures ReadRows(None, [names, row]) == [ZipCells(names, row)]
  {
    var lines := [names, row];
    assert FieldNames(None, lines) == names;
    assert DataLines(None, lines) == [row];
    ReadOneLine(names, row);
    ZipFresh(names, row);
  }

  lemma OneRowFileReads(names: seq<string>, row: seq<string>)
    requires names == ["a", "b", "c"] && row == ["1", "TRUE", "x"]
    ensures ReadRows(None, [names, row]) == [[(Str("a"), Str("1")), (Str("b"), Str("TRUE")), (Str("c"), Str("x"))]]
  {
    HeaderAndOneRow(names, row);
    assert ZipCells(names, row) == [(Str("a"), Str("1")), (Str("b"), Str("TRUE")), (Str("c"), Str("x"))];
  }

  lemma OneRowCoerces()
    ensures CoerceRecord([(Str("a"), Str("1")), (Str("b"), Str("TRUE")), (Str("c"), Str("x"))])
      == [(Str("a"), Str("1")), (Str("b"), Bool(true)), (Str("c"), Str("x"))]
  {
    var r := [(Str("a"), Str("1")), (Str("b"), Str("TRUE")), (Str("c"), Str("x"))];
    var expected := [(Str("a"), Str("1")), (Str("b"), Bool(true)), (Str("c"), Str("x"))];
    UpperTrue();
    assert !IsCasingOf("1", "true") && !IsCasingOf("1", "false");
    assert !IsCasingOf("x", "true") && !IsCasingOf("x", "false");
    assert CoerceRecord(r)[0] == expected[0];
    assert CoerceRecord(r)[1] == expected[1];
    assert CoerceRecord(r)[2] == expected[2];
  }
}
