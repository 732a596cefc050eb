/** The spreadsheet export (GenericQueryService.exportAsExcel and deriveFieldsFromData):
    one header row of column names, then one row per record with one cell per column,
    typed by the record's value for that column. The file is written under the
    temporary directory with a name taken from the entity. */
module Export {
  import opened Wrappers
  import opened Values

  /** A spreadsheet cell as exportAsExcel fills it. A date cell carries the
      "yyyy-MM-dd" style. */
  datatype Cell = Blank | Numeric(n: int) | DateCell(iso: string) | Boolean(b: bool) | Text(s: string)

  /** The one sheet of the workbook. */
  datatype Sheet = Sheet(name: string, rows: seq<seq<Cell>>)

  /** The map exportAsExcel returns, with the sheet written to `file`. */
  datatype Exported = Exported(file: string, message: string, sheet: Sheet)

  const SUCCESS_MESSAGE := "Excel export successful"

  /** The cell for `rec.get(key)`: blank for a null or missing value, a number, a date or a
      boolean for those types, and the value's string form for anything else. */
  function CellOf(v: Option<Value>): Cell
  {
    if v.None? then Blank
    else match v.value
      case Null => Blank
      case Num(n) => Numeric(n)
      case Date(iso) => DateCell(iso)
      case Bool(b) => Boolean(b)
      case _ => Text(Show(v.value))
  }

  /** What reading a cell back gives: the value it holds, None for a blank. */
  function CellValue(c: Cell): Option<Value>
  {
    match c
    case Blank => None
    case Numeric(n) => Some(Num(n))
    case DateCell(iso) => Some(Date(iso))
    case Boolean(b) => Some(Bool(b))
    case Text(s) => Some(Str(s))
  }

  /** A cell keeps every string, number, date and boolean as it was; null and missing
      values leave it blank; other values are kept as their string form. */
  lemma CellKeepsValue(v: Option<Value>)
    ensures v.None? || v.value.Null? <==> CellOf(v) == Blank
    ensures v.Some? && (v.value.Str? || v.value.Num? || v.value.Date? || v.value.Bool?) ==> CellValue(CellOf(v)) == v
    ensures v.Some? && (v.value.List? || v.value.Object? || v.value.Entity?) ==> CellValue(CellOf(v)) == Some(Str(Show(v.value)))
  {
  }

  /** deriveFieldsFromData: the keys of the first record, in its order, or none. */
  function DeriveFields(data: seq<Entries>): (r: seq<string>)
    ensures |data| == 0 ==> r == []
    ensures |data| > 0 ==> |r| == |data[0]| && forall i :: 0 <= i < |r| ==> r[i] == data[0][i].0
  {
    if |data| == 0 then [] else Keys(data[0])
  }

  /** The columns: the requested fields, or those of the first record when none were asked. */
  function HeaderFields(data: seq<Entries>, fields: Option<seq<string>>): (r: seq<string>)
    ensures fields.Some? && |fields.value| > 0 ==> r == fields.value
    ensures fields.None? || |fields.value| == 0 ==> r == DeriveFields(data)
  {
    if fields.None? || |fields.value| == 0 then DeriveFields(data) else fields.value
  }

  /** The sheet name and the file name's stem: the entity, or "export" without one. */
  function BaseName(entity: Option<string>): (r: string)
    ensures entity.Some? ==> r == entity.value
    ensures entity.None? ==> r == "export"
  {
    if entity.Some? then entity.value else "export"
  }

  /** The file exportAsExcel writes, under the temporary directory. */
  function FileName(tmpdir: string, entity: Option<string>): string
  {
    tmpdir + "/" + BaseName(entity) + "_export.xlsx"
  }

  /** The header row: one text cell per column name. */
  function HeaderRow(header: seq<string>): (r: seq<Cell>)
    ensures |r| == |header| && forall c :: 0 <= c < |header| ==> r[c] == Text(header[c])
  {
    seq(|header|, c requires 0 <= c < |header| => Text(header[c]))
  }

  /** One record's row: the cell for each column's value, in column order. */
  function RecordRow(rec: Entries, header: seq<string>): (r: seq<Cell>)
    ensures |r| == |header| && forall c :: 0 <= c < |header| ==> r[c] == CellOf(Get(rec, header[c]))
  {
    seq(|header|, c requires 0 <= c < |header| => CellOf(Get(rec, header[c])))
  }

  /** exportAsExcel on `data`, with `writes` telling whether writing the file succeeds. */
  function ExportWorkbook(data: seq<Entries>, entity: Option<string>, fields: Option<seq<string>>, tmpdir: string, writes: bool): Result<Exported, Error>
  {
    var header := HeaderFields(data, fields);
    if !writes then Failure(ExportFailed)
    else
      Success(Exported(FileName(tmpdir, entity), SUCCESS_MESSAGE,
        Sheet(BaseName(entity), [HeaderRow(header)] + seq(|data|, r requires 0 <= r < |data| => RecordRow(data[r], header)))))
  }

  /** The export fails exactly when the file cannot be written. Otherwise the sheet is
      named after the entity and has a header row naming each column, then one row per
      record, in order, whose cell in each column is the cell for the record's value of
      that column; the result names the file and reports success. */
  lemma ExportGrid(data: seq<Entries>, entity: Option<string>, fields: Option<seq<string>>, tmpdir: string, writes: bool)
    ensures var r := ExportWorkbook(data, entity, fields, tmpdir, writes); var header := HeaderFields(data, fields);
      && (r.Success? <==> writes)
      && (r.Failure? ==> r.error == ExportFailed)
      && (r.Success? ==>
            && r.value.file == tmpdir + "/" + BaseName(entity) + "_export.xlsx"
            && r.value.message == "Excel export successful"
            && r.value.sheet.name == BaseName(entity)
            && |r.value.sheet.rows| == |data| + 1
            && (forall c :: 0 <= c < |r.value.sheet.rows[0]| ==> r.value.sheet.rows[0][c] == Text(header[c]))
            && |r.value.sheet.rows[0]| == |header|
            && forall i :: 0 <= i < |data| ==>
                 && |r.value.sheet.rows[i + 1]| == |header|
                 && forall c :: 0 <= c < |header| ==> r.value.sheet.rows[i + 1][c] == CellOf(Get(data[i], header[c])))
  {
    if writes {
      var rows := ExportWorkbook(data, entity, fields, tmpdir, writes).value.sheet.rows;
      var header := HeaderFields(data, fields);
      forall i | 0 <= i < |data|
        ensures rows[i + 1] == RecordRow(data[i], header)
      {
      }
    }
  }

  /** Without requested fields the columns of a non-empty export are the first record's keys. */
  lemma ExportDerivesColumns(data: seq<Entries>, fields: Option<seq<string>>)
    requires fields.None? || |fields.value| == 0
    ensures HeaderFields(data, fields) == if |data| == 0 then [] else Keys(data[0])
  {
  }

  /** exportAsExcel: the header row, then the record rows, built cell by cell. */
  method ExportAsExcel(data: seq<Entries>, entity: Option<string>, fields: Option<seq<string>>, tmpdir: string, writes: bool)
    returns (r: Result<Exported, Error>)
    ensures r == ExportWorkbook(data, entity, fields, tmpdir, writes)
  {
    var name := BaseName(entity);
    var headerFields := if fields.None? || |fields.value| == 0 then DeriveFields(data) else fields.value;
    var header := FillHeader(headerFields);
    var rows := FillRows(data, headerFields, header);
    if !writes {
      return Failure(ExportFailed);
    }
    r := Success(Exported(FileName(tmpdir, entity), SUCCESS_MESSAGE, Sheet(name, rows)));
  }

  /** The row loop of exportAsExcel: the header row, then one row per record. */
  method FillRows(data: seq<Entries>, headerFields: seq<string>, header: seq<Cell>) returns (rows: seq<seq<Cell>>)
    ensures rows == [header] + seq(|data|, j requires 0 <= j < |data| => RecordRow(data[j], headerFields))
  {
    rows := [header];
    var k := 0;
    while k < |data|
      invariant 0 <= k <= |data| && |rows| == k + 1 && rows[0] == header
      invariant forall j :: 0 <= j < k ==> rows[j + 1] == RecordRow(data[j], headerFields)
    {
      var row := FillRow(data[k], headerFields);
      rows := rows + [row];
      k := k + 1;
    }
  }

  /** The header loop of exportAsExcel: one text cell per column name. */
  method FillHeader(headerFields: seq<string>) returns (header: seq<Cell>)
    ensures header == HeaderRow(headerFields)
  {
    header := [];
    var i := 0;
    while i < |headerFields|
      invariant 0 <= i <= |headerFields| && |header| == i
      invariant forall c :: 0 <= c < i ==> header[c] == Text(headerFields[c])
    {
      header := header + [Text(headerFields[i])];
      i := i + 1;
    }
  }

  /** The inner loop of exportAsExcel: the cells of one record, column by column. */
  method FillRow(rec: Entries, header: seq<string>) returns (row: seq<Cell>)
    ensures row == RecordRow(rec, header)
  {
    row := [];
    var c := 0;
    while c < |header|
      invariant 0 <= c <= |header| && |row| == c
      invariant forall j :: 0 <= j < c ==> row[j] == CellOf(Get(rec, header[j]))
    {
      row := row + [CellOf(Get(rec, header[c]))];
      c := c + 1;
    }
  }
}
