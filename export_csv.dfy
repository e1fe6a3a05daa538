/**
 * ExportToCSV.ExportMarkovToCSV: every Markov model file of the Models
 * directory becomes one CSV row of seven fields, taken from the first seven
 * lines of the file; a second pass over the written CSV replaces a negative
 * P00 or P01 by "0.001".
 */
module ExportToCsv {
  import opened Results
  import opened Text

  /** A model file as the directory gives it: its name and its lines, each with its line break. */
  datatype ModelFile = ModelFile(name: string, lines: seq<string>)

  type Row = seq<string>

  /** Title, description, slot length and the four transition probabilities. */
  const FIELD_COUNT: nat := 7
  const HEADER: Row := ["Title", "Description", "TX Time (ms)", "P00", "P01", "P10", "P11"]

  /** The columns of P00 and P01, and what a negative value there is replaced by. */
  const P00: nat := 3
  const P01: nat := 4
  const EPSILON: string := "0.001"

  /** Why a model file yields no row: lines[line] raises IndexError, or so does split('=')[1]. */
  datatype FieldError = LineMissing(line: nat) | NoSeparator(line: nat)

  /** Why a CSV row cannot be clamped: row[column] raises IndexError, or float() raises ValueError. */
  datatype CellError = ColumnMissing(column: nat) | NotNumeric(column: nat)

  datatype ExportError = BadModel(file: string, field: FieldError) | BadCell(row: nat, cell: CellError)

  // ---------------------------------------------------------------------------
  // Field extraction: lines[k].split('=')[1].strip() for k = 0 .. 6

  predicate HasField(lines: seq<string>, k: nat)
  {
    k < |lines| && '=' in lines[k]
  }

  /** line.split('=')[1].strip(): trimmed of whitespace and free of '='. */
  function Field(line: string): (v: string)
    requires '=' in line
    ensures '=' !in v
    ensures |v| > 0 ==> !IsSpace(v[0]) && !IsSpace(v[|v| - 1])
  {
    Strip(Split(line, '=')[1])
  }

  /** The first of lines k .. 6 that has no field, or 7 when they all have one. */
  function FirstMissing(lines: seq<string>, k: nat): (m: nat)
    requires k <= FIELD_COUNT
    ensures k <= m <= FIELD_COUNT
    ensures forall j :: k <= j < m ==> HasField(lines, j)
    ensures m < FIELD_COUNT ==> !HasField(lines, m)
    decreases FIELD_COUNT - k
  {
    if k == FIELD_COUNT || !HasField(lines, k) then k else FirstMissing(lines, k + 1)
  }

  /**
   * The CSV row of one model file: the fields
   * of lines 0 .. 6, or the IndexError of the first of them that has none.
   */
  function ExtractRow(lines: seq<string>): (r: Result<Row, FieldError>)
    ensures r.Ok? <==> |lines| >= FIELD_COUNT && forall j :: 0 <= j < FIELD_COUNT ==> '=' in lines[j]
    ensures r.Ok? ==> |r.value| == FIELD_COUNT
    ensures r.Err? ==>
      && r.error.line < FIELD_COUNT
      && (r.error.LineMissing? <==> r.error.line >= |lines|)
      && (r.error.NoSeparator? ==> '=' !in lines[r.error.line])
      && forall j :: 0 <= j < r.error.line ==> HasField(lines, j)
  {
    var m := FirstMissing(lines, 0);
    if m == FIELD_COUNT then
      assert FIELD_COUNT - 1 < |lines|;
      Ok(seq(FIELD_COUNT, j requires 0 <= j < FIELD_COUNT => Field(lines[j])))
    else if m >= |lines| then
      Err(LineMissing(m))
    else
      assert !('=' in lines[m]);
      Err(NoSeparator(m))
  }

  /** Field j of a complete row is line j's field. */
  lemma RowFieldIs(lines: seq<string>, j: nat)
    requires ExtractRow(lines).Ok? && j < FIELD_COUNT
    ensures '=' in lines[j] && ExtractRow(lines).value[j] == Field(lines[j])
  {
  }

  /**
   * The field of a line is the text between its first and its second '='
   * (or the end of the line) with the surrounding whitespace, the line
   * break included, trimmed: whatever follows a second '=' is dropped.
   */
  lemma FieldText(line: string, pre: string, value: string, post: string)
    requires '=' in line
    requires var rest := line[FirstIndex(line, '=') + 1..];
      rest[..FirstIndex(rest, '=')] == pre + value + post
    requires AllSpaces(pre) && AllSpaces(post)
    requires |value| > 0 ==> !IsSpace(value[0]) && !IsSpace(value[|value| - 1])
    ensures Field(line) == value
  {
    SecondPiece(line, '=');
    StripPadded(pre, value, post);
  }

  /** A file shorter than seven lines yields the IndexError of its first missing line, unless an earlier line lacks '='. */
  lemma ShortFileFails(lines: seq<string>)
    requires |lines| < FIELD_COUNT
    ensures ExtractRow(lines).Err?
    ensures (forall j :: 0 <= j < |lines| ==> '=' in lines[j]) ==> ExtractRow(lines) == Err(LineMissing(|lines|))
  {
    assert !HasField(lines, |lines|);
  }

  // ---------------------------------------------------------------------------
  // sorted(os.listdir(...)): the files in code-point order of their names

  predicate SortedByName(files: seq<ModelFile>)
  {
    forall i, j :: 0 <= i < j < |files| ==> LessEq(files[i].name, files[j].name)
  }

  /** f placed before the first file of sorted whose name is not below f's. */
  function Insert(f: ModelFile, sorted: seq<ModelFile>): (r: seq<ModelFile>)
    ensures multiset(r) == multiset(sorted) + multiset{f}
  {
    if |sorted| == 0 then [f]
    else if LessEq(f.name, sorted[0].name) then [f] + sorted
    else
      assert sorted == [sorted[0]] + sorted[1..];
      [sorted[0]] + Insert(f, sorted[1..])
  }

  lemma {:induction false} InsertSorted(f: ModelFile, sorted: seq<ModelFile>)
    requires SortedByName(sorted)
    ensures SortedByName(Insert(f, sorted))
  {
    if |sorted| == 0 {
    } else if LessEq(f.name, sorted[0].name) {
      forall j | 0 < j < |sorted|
        ensures LessEq(f.name, sorted[j].name)
      {
        LessEqTransitive(f.name, sorted[0].name, sorted[j].name);
      }
    } else {
      var head, tail := sorted[0], sorted[1..];
      InsertSorted(f, tail);
      var rest := Insert(f, tail);
      forall g: ModelFile | g in multiset(rest)
        ensures LessEq(head.name, g.name)
      {
        if g == f {
          LessEqTotal(f.name, head.name);
        } else {
          assert g in multiset(tail);
          var j :| 0 <= j < |tail| && tail[j] == g;
          assert sorted[j + 1] == g;
        }
      }
      assert forall j :: 0 <= j < |rest| ==> rest[j] in multiset(rest);
    }
  }

  /** sorted() on the listing: ascending names, the same files. */
  function SortByName(files: seq<ModelFile>): (r: seq<ModelFile>)
    ensures SortedByName(r)
    ensures multiset(r) == multiset(files)
  {
    if |files| == 0 then []
    else
      assert files == [files[0]] + files[1..];
      var rest := SortByName(files[1..]);
      InsertSorted(files[0], rest);
      Insert(files[0], rest)
  }

  // ---------------------------------------------------------------------------
  // First pass: one row per file, in order, until a file yields none

  /**
   * The rows the first pass writes after the header, and the error that ends
   * it early: the rows of the files before the first bad one, and that one.
   */
  function ExtractAll(files: seq<ModelFile>): (out: (seq<Row>, Option<ExportError>))
    ensures RowsWritten(files, out.0, out.1)
  {
    if |files| == 0 then ([], None)
    else match ExtractRow(files[0].lines)
      case Err(e) => ([], Some(BadModel(files[0].name, e)))
      case Ok(row) =>
        var rest := ExtractAll(files[1..]);
        assert forall k :: 0 < k <= |rest.0| ==> files[k] == files[1..][k - 1];
        ([row] + rest.0, rest.1)
  }

  /** rows are the rows of the leading files that yield one, and err names the first that does not. */
  ghost predicate RowsWritten(files: seq<ModelFile>, rows: seq<Row>, err: Option<ExportError>)
  {
    && |rows| <= |files|
    && (forall k :: 0 <= k < |rows| ==> ExtractRow(files[k].lines) == Ok(rows[k]))
    && (err.None? <==> |rows| == |files|)
    && (err.Some? ==>
         && |rows| < |files|
         && var f := files[|rows|];
            ExtractRow(f.lines).Err? && err.value == BadModel(f.name, ExtractRow(f.lines).error))
  }

  /** The first pass has exactly one outcome. */
  lemma RowsWrittenUnique(files: seq<ModelFile>, rows: seq<Row>, err: Option<ExportError>)
    requires RowsWritten(files, rows, err)
    ensures (rows, err) == ExtractAll(files)
  {
    var out := ExtractAll(files);
    assert |out.0| == |rows|;
    forall k | 0 <= k < |rows|
      ensures rows[k] == out.0[k]
    {
      assert ExtractRow(files[k].lines) == Ok(rows[k]) == Ok(out.0[k]);
    }
    assert rows == out.0;
    if err.Some? {
      assert out.1.Some?;
    }
  }

  /** The write loop: extract and write one row per file, in order. */
  method WriteModels(files: seq<ModelFile>) returns (rows: seq<Row>, err: Option<ExportError>)
    ensures (rows, err) == ExtractAll(files)
  {
    rows, err := [], None;
    for i := 0 to |files|
      invariant |rows| == i
      invariant forall k :: 0 <= k < i ==> ExtractRow(files[k].lines) == Ok(rows[k])
    {
      var row := ExtractRow(files[i].lines);
      if row.Err? {
        err := Some(BadModel(files[i].name, row.error));
        RowsWrittenUnique(files, rows, err);
        return;
      }
      rows := rows + [row.value];
    }
    RowsWrittenUnique(files, rows, err);
  }

  // ---------------------------------------------------------------------------
  // Second pass: negative P00 and P01 become "0.001"

  /** One step of the clamp loop: a cell that reads as a negative number becomes "0.001"; reading is parse. */
  function ClampCell(row: Row, col: nat, parse: string -> Option<real>): (r: Result<Row, CellError>)
  {
    if col >= |row| then Err(ColumnMissing(col))
    else match parse(row[col])
      case None => Err(NotNumeric(col))
      case Some(v) => Ok(if v < 0.0 then row[col := EPSILON] else row)
  }

  /**
   * A step fails exactly when its cell is missing or does not read as a
   * number; otherwise it replaces that cell by "0.001" exactly when the cell
   * reads as negative, and touches no other cell.
   */
  lemma ClampCellRule(row: Row, col: nat, parse: string -> Option<real>)
    ensures var r := ClampCell(row, col, parse);
      && (r.Ok? <==> col < |row| && parse(row[col]).Some?)
      && (r.Err? ==> r.error == if col < |row| then NotNumeric(col) else ColumnMissing(col))
      && (r.Ok? ==> |r.value| == |row| && forall c :: 0 <= c < |row| ==>
            r.value[c] == if c == col && Negative(row, col, parse) then EPSILON else row[c])
  {
  }

  /** Whether a clamped column of row is replaced. */
  predicate Negative(row: Row, col: nat, parse: string -> Option<real>)
  {
    col < |row| && parse(row[col]).Some? && parse(row[col]).value < 0.0
  }

  /**
   * The clamp loop on one row: P00 then P01 is read as a number, and a negative
   * one is replaced by "0.001"; every other cell, and the length, stay.
   */
  function ClampRow(row: Row, parse: string -> Option<real>): (r: Result<Row, CellError>)
    ensures r.Ok? <==> |row| > P01 && parse(row[P00]).Some? && parse(row[P01]).Some?
    ensures r.Err? ==>
      r.error == if |row| <= P00 then ColumnMissing(P00)
                 else if parse(row[P00]).None? then NotNumeric(P00)
                 else if |row| <= P01 then ColumnMissing(P01)
                 else NotNumeric(P01)
    ensures r.Ok? ==> |r.value| == |row|
  {
    match ClampCell(row, P00, parse)
    case Err(e) => Err(e)
    case Ok(next) => ClampCell(next, P01, parse)
  }

  /** The clamp rule: P00 and P01 become "0.001" exactly when they read as negative; no other cell changes. */
  lemma ClampRule(row: Row, parse: string -> Option<real>)
    requires ClampRow(row, parse).Ok?
    ensures var out := ClampRow(row, parse).value;
      forall c :: 0 <= c < |row| ==>
        out[c] == if (c == P00 || c == P01) && Negative(row, c, parse) then EPSILON else row[c]
  {
    var next := ClampCell(row, P00, parse).value;
    assert parse(next[P01]) == parse(row[P01]);
  }

  /** The title, description, slot length, P10 and P11 of a row never change. */
  lemma ClampKeepsOtherColumns(row: Row, parse: string -> Option<real>, c: nat)
    requires ClampRow(row, parse).Ok? && c < |row| && c != P00 && c != P01
    ensures ClampRow(row, parse).value[c] == row[c]
  {
    ClampRule(row, parse);
  }

  /** Where float("0.001") is 0.001, no clamped P00 or P01 is negative any more. */
  lemma ClampLeavesNoNegative(row: Row, parse: string -> Option<real>)
    requires parse(EPSILON) == Some(0.001)
    requires ClampRow(row, parse).Ok?
    ensures var out := ClampRow(row, parse).value;
      && !Negative(out, P00, parse) && parse(out[P00]).Some?
      && !Negative(out, P01, parse) && parse(out[P01]).Some?
  {
    ClampRule(row, parse);
  }

  /** Clamping a clamped row changes nothing. */
  lemma ClampRowIdempotent(row: Row, parse: string -> Option<real>)
    requires parse(EPSILON) == Some(0.001)
    requires ClampRow(row, parse).Ok?
    ensures ClampRow(ClampRow(row, parse).value, parse) == ClampRow(row, parse)
  {
    var out := ClampRow(row, parse).value;
    ClampRule(row, parse);
    ClampLeavesNoNegative(row, parse);
    var again := ClampRow(out, parse).value;
    ClampRule(out, parse);
    assert |again| == |out|;
    forall c | 0 <= c < |out|
      ensures again[c] == out[c]
    {
    }
  }

  /** The rows of the second pass, or the error of the first row that cannot be clamped. */
  function ClampAll(rows: seq<Row>, parse: string -> Option<real>): (r: Result<seq<Row>, ExportError>)
    ensures r.Ok? <==> forall k :: 0 <= k < |rows| ==> ClampRow(rows[k], parse).Ok?
    ensures r.Ok? ==> |r.value| == |rows|
    ensures r.Ok? ==> forall k :: 0 <= k < |rows| ==> ClampRow(rows[k], parse) == Ok(r.value[k])
    ensures r.Err? ==>
      && r.error.BadCell? && r.error.row < |rows|
      && ClampRow(rows[r.error.row], parse) == Err(r.error.cell)
      && forall k :: 0 <= k < r.error.row ==> ClampRow(rows[k], parse).Ok?
  {
    if |rows| == 0 then Ok([])
    else
      var last := |rows| - 1;
      var init := rows[..last];
      assert forall k :: 0 <= k < last ==> rows[k] == init[k];
      match ClampAll(init, parse)
      case Err(e) => Err(e)
      case Ok(done) =>
        match ClampRow(rows[last], parse)
        case Err(e) => Err(BadCell(last, e))
        case Ok(row) => Ok(done + [row])
  }

  /** Running the second pass on its own output changes nothing. */
  lemma ClampAllIdempotent(rows: seq<Row>, parse: string -> Option<real>)
    requires parse(EPSILON) == Some(0.001)
    requires ClampAll(rows, parse).Ok?
    ensures ClampAll(ClampAll(rows, parse).value, parse) == ClampAll(rows, parse)
  {
    var out := ClampAll(rows, parse).value;
    forall k | 0 <= k < |out|
      ensures ClampRow(out[k], parse) == Ok(out[k])
    {
      ClampRowIdempotent(rows[k], parse);
    }
    var again := ClampAll(out, parse).value;
    assert again == out;
  }

  /** The clamp loop: every row in place, P00 first, then P01. */
  method ClampPass(rows: seq<Row>, parse: string -> Option<real>) returns (r: Result<seq<Row>, ExportError>)
    ensures r == ClampAll(rows, parse)
  {
    var out: seq<Row> := [];
    for i := 0 to |rows|
      invariant |out| == i
      invariant forall k :: 0 <= k < i ==> ClampRow(rows[k], parse) == Ok(out[k])
    {
      var row := rows[i];
      if |row| <= P00 {
        return Err(BadCell(i, ColumnMissing(P00)));
      }
      var p00 := parse(row[P00]);
      if p00.None? {
        return Err(BadCell(i, NotNumeric(P00)));
      }
      if p00.value < 0.0 {
        row := row[P00 := EPSILON];
      }
      if |row| <= P01 {
        return Err(BadCell(i, ColumnMissing(P01)));
      }
      var p01 := parse(row[P01]);
      if p01.None? {
        return Err(BadCell(i, NotNumeric(P01)));
      }
      if p01.value < 0.0 {
        row := row[P01 := EPSILON];
      }
      out := out + [row];
    }
    assert out == ClampAll(rows, parse).value;
    return Ok(out);
  }

  // ---------------------------------------------------------------------------
  // The whole export

  /**
   * The CSV file after the export, and the error that stopped it. A failure
   * of the first pass leaves the header and the rows written before it; a
   * failure of the second pass leaves the first pass's file as it was.
   */
  function Export(listing: seq<ModelFile>, parse: string -> Option<real>): (out: (seq<Row>, Option<ExportError>))
    ensures |out.0| >= 1 && out.0[0] == HEADER
    ensures |out.0| <= |listing| + 1
    ensures out.1.None? ==> |out.0| == |listing| + 1
  {
    var files := SortByName(listing);
    assert |files| == |multiset(files)| == |multiset(listing)| == |listing|;
    var (raw, written) := ExtractAll(files);
    if written.Some? then ([HEADER] + raw, written)
    else match ClampAll(raw, parse)
      case Err(e) => ([HEADER] + raw, Some(e))
      case Ok(rows) => ([HEADER] + rows, None)
  }

  /**
   * A complete export is the header followed by one row per model file, in
   * sorted file-name order: the file's seven fields with P00 and P01 clamped.
   */
  lemma ExportLayout(listing: seq<ModelFile>, parse: string -> Option<real>)
    requires Export(listing, parse).1.None?
    ensures var csv, files := Export(listing, parse).0, SortByName(listing);
      && |csv| == |files| + 1 && csv[0] == HEADER
      && forall k :: 0 <= k < |files| ==>
           && ExtractRow(files[k].lines).Ok?
           && ClampRow(ExtractRow(files[k].lines).value, parse) == Ok(csv[k + 1])
  {
    var files := SortByName(listing);
    var raw := ExtractAll(files).0;
    var rows := ClampAll(raw, parse).value;
    assert Export(listing, parse).0 == [HEADER] + rows;
    CleanRows(files, raw, rows, parse);
  }

  /** Rows written for every file and all clamped: row k is file k's clamped extraction. */
  lemma CleanRows(files: seq<ModelFile>, raw: seq<Row>, rows: seq<Row>, parse: string -> Option<real>)
    requires RowsWritten(files, raw, None) && ClampAll(raw, parse) == Ok(rows)
    ensures |rows| == |files|
    ensures forall k :: 0 <= k < |files| ==>
      && ExtractRow(files[k].lines).Ok?
      && ClampRow(ExtractRow(files[k].lines).value, parse) == Ok(([HEADER] + rows)[k + 1])
  {
    forall k | 0 <= k < |files|
      ensures && ExtractRow(files[k].lines).Ok?
              && ClampRow(ExtractRow(files[k].lines).value, parse) == Ok(([HEADER] + rows)[k + 1])
    {
      CleanRow(files[k], raw[k], rows[k], parse);
      assert ([HEADER] + rows)[k + 1] == rows[k];
    }
  }

  lemma CleanRow(f: ModelFile, raw: Row, row: Row, parse: string -> Option<real>)
    requires ExtractRow(f.lines) == Ok(raw) && ClampRow(raw, parse) == Ok(row)
    ensures ExtractRow(f.lines).Ok? && ClampRow(ExtractRow(f.lines).value, parse) == Ok(row)
  {
  }

  /**
   * An export stopped by a model file leaves the header and the unclamped
   * rows of the files sorted before it; one stopped by the second pass
   * leaves the header and the unclamped rows of all files.
   */
  lemma ExportFailure(listing: seq<ModelFile>, parse: string -> Option<real>)
    requires Export(listing, parse).1.Some?
    ensures var (csv, err), files := Export(listing, parse), SortByName(listing);
      && csv[0] == HEADER
      && (err.value.BadModel? ==>
           var n := |csv| - 1;
           && n < |files| && ExtractRow(files[n].lines).Err?
           && err.value.file == files[n].name && err.value.field == ExtractRow(files[n].lines).error)
      && (err.value.BadCell? ==> |csv| == |files| + 1 && ClampAll(csv[1..], parse) == Err(err.value))
      && forall k :: 0 <= k < |csv| - 1 ==> ExtractRow(files[k].lines) == Ok(csv[k + 1])
  {
    var files := SortByName(listing);
    var (raw, written) := ExtractAll(files);
    var csv := Export(listing, parse).0;
    assert csv == [HEADER] + raw;
    assert csv[1..] == raw;
  }

  /** ExportMarkovToCSV: sort the listing, write the rows, then clamp them. */
  method ExportMarkovToCsv(listing: seq<ModelFile>, parse: string -> Option<real>)
    returns (csv: seq<Row>, err: Option<ExportError>)
    ensures (csv, err) == Export(listing, parse)
  {
    var files := SortByName(listing);
    var rows;
    rows, err := WriteModels(files);
    csv := [HEADER] + rows;
    if err.Some? {
      return;
    }
    var header, body := csv[0], csv[1..];
    assert body == rows;
    var clamped := ClampPass(body, parse);
    if clamped.Err? {
      err := Some(clamped.error);
      return;
    }
    csv := [header] + clamped.value;
  }
}
