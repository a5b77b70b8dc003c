# JSON/CSV converter: the record-shaping core in Dafny

`json_CSV_converter.py` moves data between JSON and CSV files. Two pieces of it do
more than pass bytes along, and this project models both as pure and imperative
Dafny and proves what they promise.

- **Import.** `csv.DictReader` turns the text rows of a file into dicts. The tail of
  `import_csv_from_disk` then turns every string cell that spells `true` or `false`
  (in any casing) into a boolean, using `str2bool`. A one-row result collapses into
  that single dict.
- **Export.** `export_csv_data_to_disk` reshapes its input into a header list and a
  sequence of rows. Its input is a list of dicts, a dict of dicts, or a flat dict.
  `csv.DictWriter` then writes them (`restval=''`, `extrasaction='ignore'`). It can
  optionally trim every cell with `enforce_excel_cell_string_limit`.

Files:

- `wrappers.dfy` holds `Option` and `Result`.
- `values.dfy` holds the Python values the converter handles:
  - `Value` covers `None`, bool, int, str, list and dict.
  - Dicts are insertion-ordered sequences of pairs.
  - It has dict lookup and assignment, truthiness, ASCII `lower()`, and `str()`/`repr()`.
- `csv_import.dfy` holds the reader, `str2bool` and the import tail. The tail is
  modelled both as written (`ImportAsWritten`, and the loop `ImportCsvTail`) and as
  documented (`NormalizeImport`).
- `csv_import_facts.dfy` holds what the import tail does with the reader's output.
- `csv_export.dfy` holds the trimming function, the reshaping, and the writer. The
  total function `Export` specifies the loops `ShapeFlatDict`, `WriteCsv` and
  `ExportCsvData`.
- `csv_export_facts.dfy` holds the promises about the written table: the shape rules,
  cell projection and trimming bounds.
- `round_trip.dfy` covers export followed by import.

Outcomes are modelled as follows:

- An export ends as `NothingToExport`, `Written(lines)` or `Aborted(lines, error)`.
  `Aborted` keeps the lines written before a Python exception was raised.
- An import as written ends as `Success(Single(record) | Table(records))` or
  `Failure(error)`.
- Output lines are sequences of text cells. The writer turns `None` into `''` and
  anything else into `str()`.

Where the documentation and the code disagree, the model follows the code:

- The import docstring says surplus fields of a long row are "ignored". The code
  keeps `csv.DictReader`'s behaviour: they go, as a list, under the key `None`. That
  is why line 170 tests `isinstance(v, list)`, and `ReadRecord` models it.
- The two disagreements that make the code raise are listed under Findings.

## Model

| member | source | states |
|---|---|---|
| Values.LowerStrIsWord | json_CSV_converter.py:28-31 | comparing `s.lower()` with a lower-case word holds exactly when `s` is some casing of that word |
| Values.Set | json_CSV_converter.py:353 | `d[k] = v` leaves `v` under `k` and adds no other entry |
| CsvImport.Str2Bool | json_CSV_converter.py:12-31 | `Some(true)` exactly for the casings of "true", `Some(false)` exactly for the casings of "false", `None` for every other string |
| CsvImport.ReadRecordFields | json_CSV_converter.py:124-128 | with distinct field names, a record has one entry per field name, in order; it holds the row's cell, or `None` past the end of a short row; a long row's surplus cells follow as a list under the key `None` |
| CsvImport.LongRecord | json_CSV_converter.py:124-126 | a row longer than the field names reads as the zipped pairs, in order, followed by the surplus cells as one list under the key `None` |
| CsvImport.ShortRecord | json_CSV_converter.py:127-128 | a short row reads as the zipped pairs, in order, followed by `None` under each field name the row did not reach |
| CsvImport.FullRowHasText | json_CSV_converter.py:157-160 | a row at least as long as the field names reads as strings only, plus a list of surplus strings |
| CsvImport.ShortRowHasNull | json_CSV_converter.py:127-128 | a short row leaves `None` under the last field name |
| CsvImport.CoerceRecord | json_CSV_converter.py:168-171 | the boolean pass keeps keys and key order; a value changes exactly when it is a string spelling true/false in some casing, and it becomes that boolean; lists and other strings are untouched |
| CsvImport.CoerceRows | json_CSV_converter.py:168-171 | the pass keeps the number of records and treats each record alone |
| CsvImport.Collapse | json_CSV_converter.py:173-174 | exactly one row gives that record on its own; any other count, 0 included, gives the list unchanged |
| CsvImport.ImportCsvTail | json_CSV_converter.py:166-176 | the in-place nested loops and the collapse compute `ImportAsWritten`: `TypeError` on `None` data, `AttributeError` on the first cell that is neither list nor string, else the coerced rows collapsed |
| CsvImport.NormalizeImport | json_CSV_converter.py:116-122 | the documented tail: `None` exactly for no data; otherwise a single record exactly when there is one row, with its keys kept, or a table of as many records as rows |
| CsvImportFacts.RecordRaisesIffShort | json_CSV_converter.py:170 | a record read from a row holds a value `.lower()` rejects exactly when the row is shorter than the field names |
| CsvImportFacts.ReaderRaisesIffShortRow | json_CSV_converter.py:157-171 | over the reader's output, the pass as written raises exactly when some non-blank row is short |
| CsvImportFacts.ImportRaisesIffShortRow | json_CSV_converter.py:166-171 | reading a parsed file and running the tail fails exactly when a data row is short, and then with `AttributeError` |
| CsvImportFacts.AsWrittenAgreesWithNormalize | json_CSV_converter.py:166-176 | the tail as written succeeds exactly on present data without non-text cells, and then returns what the documented tail returns |
| CsvImportFacts.EmptyFileRaises | json_CSV_converter.py:173 | as written, `None` data raises `TypeError` at `len(data)`; documented: `None` |
| CsvImportFacts.ShortRowRaises | json_CSV_converter.py:170 | headers a, b and the row x: as written `AttributeError`; documented: the record a=x, b=None |
| CsvImportFacts.ShortRowKeepsNone | json_CSV_converter.py:127-128 | for any short row, as written raises `AttributeError`; documented: one record with every field name, in order, `None` past the row's end and the coerced cells before it |
| CsvImportFacts.OneRowFileIsSingleRecord | json_CSV_converter.py:116-119 | a header line and the one row 1, TRUE, x import as the single record a=1, b=True, c=x |
| CsvExport.Trim | json_CSV_converter.py:252-267 | the length is `min(len, eff)` where `eff` is the limit raised to 4 when at most 3; the string is unchanged exactly when it fits; otherwise a prefix of the input followed by "..." |
| CsvExport.Export | json_CSV_converter.py:323-328 | nothing is exported exactly when the data is falsy: `None`, an empty collection or string, `0` or `False` |
| CsvExport.ShapeForExport | json_CSV_converter.py:332-357 | the reshaping fails only without given headers, and only with `TypeError`; given headers are used as they are; a dict always yields an iterable collection of rows; a list without headers keeps its items as the rows |
| CsvExport.WriteOut | json_CSV_converter.py:362-370 | the header line is always written first; the write succeeds exactly when the collection is iterable and either every item is a dict or there are neither header names nor trimming, and then writes one line per item; `TypeError` arises exactly for a collection that cannot be iterated; no more than one line per item is ever written |
| CsvExport.ShapeFlatDict | json_CSV_converter.py:344-354 | the `count`-flag loop makes the first pair the headers and every later pair `(k, v)` the row `{h0: k, h1: v}`, in order, `len(dict) - 1` rows |
| CsvExport.WriteCsv | json_CSV_converter.py:362-370 | the header line, then, item by item, the in-place trimmed item projected on the headers; a non-dict item raises `AttributeError` after the lines before it, at `.items()` when trimming or at `.get()` when there are header names; with no header names and no trimming every item, dict or not, writes an empty line; a non-iterable collection raises `TypeError` after the header |
| CsvExport.ExportCsvData | json_CSV_converter.py:323-370 | the whole export, step by step, computes `Export` |
| CsvExportFacts.TrimIdempotent | json_CSV_converter.py:262-267 | trimming twice is trimming once |
| CsvExportFacts.TrimExamples | json_CSV_converter.py:259-264 | 20 characters at limit 10 keep 7 and end in "..."; limits 2 and 4 trim alike |
| CsvExportFacts.RowLineCells | json_CSV_converter.py:362-370 | a written row has one cell per header, in header order: the value's text (its `str()`, trimmed, when trimming), or '' for a missing key; other keys appear nowhere |
| CsvExportFacts.WriteAllDicts | json_CSV_converter.py:364-370 | when every item is a dict, the header line and one line per item are written |
| CsvExportFacts.TrimmedCellsFit | json_CSV_converter.py:366-369 | with trimming on, no data cell is longer than 32750 characters, whatever the input and however the export ends |
| CsvExportFacts.ListExport | json_CSV_converter.py:356-370 | a list of dicts: headers are the first dict's keys, in order; one line per dict, in order, with the cells of `RowLineCells` |
| CsvExportFacts.UniformListExport | json_CSV_converter.py:356-370 | without trimming, dicts sharing one key order are written as their own values, in that order |
| CsvExportFacts.NestedDictExport | json_CSV_converter.py:335-341 | a dict of dicts: headers are the first nested dict's keys, in order; one line per nested dict, in outer-key order |
| CsvExportFacts.NestedOuterKeysIgnored | json_CSV_converter.py:335-341 | the outer keys of a dict of dicts appear nowhere: changing them changes no line |
| CsvExportFacts.FlatDictExport | json_CSV_converter.py:342-354 | without trimming, a flat dict with distinct first key and value is written as its pairs, one per line, in order, `len(dict)` lines in all |
| CsvExportFacts.FlatDictSameHeaders | json_CSV_converter.py:349-353 | without trimming, when the first key equals the first value, `{h: k, h: v}` keeps only `v`, so each later line holds the value twice |
| CsvExportFacts.PairDictSame | json_CSV_converter.py:353 | the literal `{h: k, h: v}` holds the single entry `h: v` |
| CsvExportFacts.FlatDictUnhashable | json_CSV_converter.py:349-364 | a flat dict whose first value is a list cannot serve as a header: `TypeError`, nothing written |
| CsvExportFacts.DictWithHeadersFails | json_CSV_converter.py:332-370 | a dict exported with given, non-empty headers (or with trimming) is not reshaped: the header line is written, then the first key raises `AttributeError` |
| CsvExportFacts.DictWithNoHeaderNames | json_CSV_converter.py:362-370 | a dict exported with an empty header list and no trimming writes the empty header line and one empty line per key, without error |
| CsvExportFacts.EmptyFirstDictList | json_CSV_converter.py:356-370 | a list whose first item is `{}` has no header names: without trimming every item, dict or not, is an empty line; with trimming the export fails, with `AttributeError`, exactly when some item is not a dict |
| CsvExportFacts.EmptyDictThenNumber | json_CSV_converter.py:356-370 | `[{}, 5]` writes three empty lines without trimming, and raises `AttributeError` on `5` after two with trimming |
| CsvExportFacts.TrimWritesNoneAsText | json_CSV_converter.py:366-369 | a `None` value is an empty cell untrimmed, but the text "None" when trimming |
| CsvExportFacts.NestedDictExample | json_CSV_converter.py:280-292 | {k1: {x: 1, y: 2}, k2: {x: 3, y: 4}} is written as x,y / 1,2 / 3,4 |
| CsvExportFacts.FlatDictExample | json_CSV_converter.py:293-300 | {color: red, size: large} is written as color,red / size,large |
| RoundTrip.CellRestores | json_CSV_converter.py:12-31 | a boolean or a string not spelling a boolean, written as a cell and read back through `str2bool`, is itself again |
| RoundTrip.ReadNoBlankLines | json_CSV_converter.py:157-160 | with no blank line, the reader gives one record per line, in order |
| RoundTrip.RecordRestores | json_CSV_converter.py:167-171 | a written data line, read against the header names and coerced, is the record it came from |
| RoundTrip.ReadBack | json_CSV_converter.py:166-176 | the written lines, read with the first line as field names and coerced, are the records again, and no data row is short |
| RoundTrip.ExportThenImport | json_CSV_converter.py:362-370 | dicts sharing distinct string keys in one order, holding booleans and non-boolean strings, are exported without trimming and imported back (as written or as documented) unchanged at the level of cells, one dict on its own |

## Left out

- File handling is not modelled:
  - `open`, `os.stat`, `mkdir`;
  - the empty-file check before reading;
  - that an export creates its file before a `TypeError` from `writeheader`.
  These are I/O. The model starts from the parsed rows and ends with the lines a writer receives.
- `csv.Sniffer` dialect detection, and the reader's parsing of quoted text into rows, are not modelled. Both are library code, and the reader model starts from rows of cells.
- The writer's quoting, escaping, delimiter and encoding are not modelled. The output is cells, not bytes.
- The `print` diagnostics are left out. The outcome datatypes stand in for them.
- `import_data_from_disk`, `export_data_to_disk`, `import_json_from_disk`, `export_json_data_to_disk`, `convert_file` and `main` are not modelled. They dispatch on file extensions and call into `simplejson` and `sys.exit`.
- Values.LowerStr: `lower()` is ASCII-only, where Python lowers all of Unicode. For the comparison with "true"/"false" in `str2bool` and on line 170 this makes no difference. No non-ASCII character lowers to one of those letters: the Kelvin sign lowers to `k`, and dotted capital I to `i` plus a combining dot.
- Values.Render: `repr()` of a string inside a container is put in single quotes without escaping. Python escapes special characters and uses double quotes for a string that contains `'`.
- Floats are not modelled.
- Key equality is structural. Python's `1 == True` identifying dict keys is not modelled.
- CsvExport.ExportCsvData does not model `copy.deepcopy`, because values are immutable here and the caller's data is never changed.
  - Aliasing between nested dicts is not represented. Deepcopy keeps a shared sub-dict shared, and the trim loop rewrites each row in place.
  - So with trimming on, a dict that is both a row and nested inside a later row is written in that later row after its in-place trim in the source, and before it in the model. For example, with `d = {"a": 5}` and the data `[d, {"a": d}]`, the source's second row holds `{'a': '5'}` and the model's holds `{'a': 5}`.
  - Data loaded from JSON or CSV never shares sub-dicts, so this arises only for data built in Python.
- CsvExport.WriteCsv updates the item's value at position `j` where Python assigns `item[key]`. This is the same because dict keys are distinct.
- RoundTrip.ExportThenImport works at the level of cells: the reader is handed the written cells, which assumes the sniffed dialect parses the file back into them. It covers lists of dicts without trimming. The round trip is not claimed for:
  - numbers and `None`, which come back as strings;
  - strings spelling a boolean, which come back as booleans.

## Findings

| source | as written | input that shows it | evidently intended | confidence | as-written member | corrected member |
|---|---|---|---|---|---|---|
| json_CSV_converter.py:173 | `len(data)` runs outside the `if data is not None` block | an empty file, or one the reader cannot load, leaves `data` as `None`, and `len(None)` raises `TypeError` | return `None` for an empty or invalid file | not executed | CsvImportFacts.EmptyFileRaises | CsvImport.NormalizeImport |
| json_CSV_converter.py:170 | `v.lower()` is called on every non-list value | headers a, b and the data row `x`: the reader fills b with `None`, and `None.lower()` raises `AttributeError` | a short row keeps `None` in its missing fields | not executed | CsvImportFacts.ShortRowKeepsNone | CsvImport.NormalizeImport |
