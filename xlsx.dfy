/**
 * The spreadsheet writer (src/conv/xlsx.rs).
 *
 * The column names go to row 0 in bold, result row `r` to sheet row `r + 1`,
 * each cell with the number format of its column's kind; a null temporal
 * value leaves its cell empty. The header row is frozen and an autofilter is
 * set over the data. The worksheet is a sparse grid of written cells; the
 * workbook file is the worksheet as it stands when it is saved.
 */
module Xlsx {
  import opened Conv

  // ---------------------------------------------------------------------------
  // Formats
  // ---------------------------------------------------------------------------

  /** The format tags of the palette. */
  datatype XF = Bold | Int | Eur | Date | Time | Stamp

  /** A cell format: bold or not, and an Excel number format. */
  datatype Format = Format(bold: bool, numFormat: Option<string>)

  /** The palette the writer builds once: bold for the header, a number format for every other tag. */
  function Palette(xf: XF): (f: Format)
    ensures f.bold <==> xf == Bold
    ensures f.numFormat.None? <==> xf == Bold
  {
    match xf
    case Bold => Format(true, None)
    case Int => Format(false, Some("#,##0"))
    case Eur => Format(false, Some("#,##0.00"))
    case Date => Format(false, Some("dd/mm/yyyy"))
    case Time => Format(false, Some("hh:mm"))
    case Stamp => Format(false, Some("dd/mm/yyyy hh:mm:ss"))
  }

  /** Distinct tags have distinct formats. */
  lemma PaletteInjective(a: XF, b: XF)
    requires Palette(a) == Palette(b)
    ensures a == b
  {
  }

  /** The format tag of the cells of each kind; strings, booleans and JSON are written without one. */
  function FormatOf(k: FieldKind): Option<XF> {
    match k
    case Int8 | Int16 | Int32 | Int64 => Some(Int)
    case Float32 | Float64 | Decimal => Some(Eur)
    case Date => Some(XF.Date)
    case Time => Some(XF.Time)
    case DateTime | DateTimeTz => Some(Stamp)
    case _ => None
  }

  // ---------------------------------------------------------------------------
  // Cell renderer
  // ---------------------------------------------------------------------------

  /** The value of a written cell. */
  datatype CellValue =
    | Integer(i: int)        // an i8, i16 or i32 (see `Render`), which an f64 holds exactly
    | RoundedInt(i: int)     // an i64 cast to f64, rounded to the nearest f64
    | Float(f: Fp)
    | TextValue(s: string)
    | Logical(b: bool)
    | DateValue(t: Temporal)
    | TimeValue(t: Temporal)
    | StampValue(t: Temporal)

  /** A written cell: its value and its format tag, if any. */
  datatype Cell = Cell(value: CellValue, format: Option<XF>)

  /** The cell column `c` of a row is written as, or nothing for a null temporal value. */
  function Render(k: FieldKind, c: nat, row: Row): (r: Result<Option<Cell>>)
    requires Implemented(k)
    ensures r.Ok? <==> c < |row.values| && Converts(k, row.values[c])
    ensures r.Fail? && c < |row.values| && Decodes(k, row.values[c]) ==> r.failure == DecimalNotF64(c)
    ensures r.Fail? && !(c < |row.values| && Decodes(k, row.values[c])) ==> r.failure == DecodePanic(c)
    ensures r.Ok? && r.value.Some? && r.value.value.value.Integer? ==>
      -0x8000_0000 <= r.value.value.value.i < 0x8000_0000
  {
    var v :- Fetch(k, row, c);
    match k
    case Int8 | Int16 | Int32 => Ok(Some(Cell(Integer(v.i), Some(Int))))
    case Int64 => Ok(Some(Cell(RoundedInt(v.i), Some(Int))))
    case Float32 | Float64 => Ok(Some(Cell(Float(v.f), Some(Eur))))
    case Str => Ok(Some(Cell(TextValue(v.s), None)))
    case Bool => Ok(Some(Cell(Logical(v.b), None)))
    case Decimal => if v.d.asF64.None? then Fail(DecimalNotF64(c)) else Ok(Some(Cell(Float(v.d.asF64.value), Some(Eur))))
    case Date => Ok(if v.Null? then None else Some(Cell(DateValue(v.t), Some(XF.Date))))
    case Time => Ok(if v.Null? then None else Some(Cell(TimeValue(v.t), Some(XF.Time))))
    case DateTime => Ok(if v.Null? then None else Some(Cell(StampValue(v.t), Some(Stamp))))
    case DateTimeTz => Ok(if v.Null? then None else Some(Cell(StampValue(v.z.naiveLocal), Some(Stamp))))
    case Json => Ok(Some(Cell(TextValue(v.doc.text), None)))
  }

  /** Every written cell carries its kind's format tag. */
  lemma RenderFormat(k: FieldKind, c: nat, row: Row)
    requires Implemented(k)
    requires Render(k, c, row).Ok? && Render(k, c, row).value.Some?
    ensures Render(k, c, row).value.value.format == FormatOf(k)
  {
  }

  /** A cell is skipped exactly for a null temporal value; every other value is written. */
  lemma RenderSkips(k: FieldKind, c: nat, row: Row)
    requires Implemented(k)
    requires Render(k, c, row).Ok?
    ensures Render(k, c, row).value.None? <==> k in {FieldKind.Date, FieldKind.Time, DateTime, DateTimeTz} && row.values[c].Null?
  {
  }

  /** A timestamp in the local zone is written as its naive local reading. */
  lemma RenderLocalTimestamp(c: nat, row: Row)
    requires c < |row.values| && row.values[c].LocalDateTime?
    ensures Render(DateTimeTz, c, row) == Ok(Some(Cell(StampValue(row.values[c].z.naiveLocal), Some(Stamp))))
  {
  }

  /** A renderer as the source keeps it: a function of the column index and the row. */
  type Renderer = (nat, Row) -> Result<Option<Cell>>

  /** Renderer selection: a `todo!()` for the unsigned kinds and `Unknown`. */
  function Convert(f: Field): (r: Result<Renderer>)
    ensures r.Ok? <==> Implemented(f.kind)
    ensures r.Fail? ==> r.failure == Unimplemented(f.kind)
    ensures r.Ok? ==> forall c, row :: r.value(c, row) == Render(f.kind, c, row)
  {
    if Implemented(f.kind) then Ok((c: nat, row: Row) => Render(f.kind, c, row))
    else Fail(Unimplemented(f.kind))
  }

  // ---------------------------------------------------------------------------
  // The worksheet
  // ---------------------------------------------------------------------------

  /** A cell range, both corners included. */
  datatype Range = Range(firstRow: nat, firstCol: nat, lastRow: nat, lastCol: nat)

  predicate InRange(p: (nat, nat), range: Range) {
    range.firstRow <= p.0 <= range.lastRow && range.firstCol <= p.1 <= range.lastCol
  }

  /** What a saved workbook holds of its one worksheet. */
  datatype Sheet = Sheet(cells: map<(nat, nat), Cell>, freeze: Option<(nat, nat)>, filter: Option<Range>)

  /** The worksheet the writer fills: the written cells, the freeze pane and the autofilter. */
  class Worksheet {
    var cells: map<(nat, nat), Cell>
    var freeze: Option<(nat, nat)>
    var filter: Option<Range>

    constructor ()
      ensures cells == map[] && freeze == None && filter == None
    {
      cells := map[];
      freeze := None;
      filter := None;
    }

    /** `write`: a value without a format. */
    method Write(r: nat, c: nat, v: CellValue)
      modifies this
      ensures cells == old(cells)[(r, c) := Cell(v, None)]
      ensures freeze == old(freeze) && filter == old(filter)
    {
      cells := cells[(r, c) := Cell(v, None)];
    }

    /** `write_with_format`: a value with the palette's format for `xf`. */
    method WriteWithFormat(r: nat, c: nat, v: CellValue, xf: XF)
      modifies this
      ensures cells == old(cells)[(r, c) := Cell(v, Some(xf))]
      ensures freeze == old(freeze) && filter == old(filter)
    {
      cells := cells[(r, c) := Cell(v, Some(xf))];
    }

    method SetFreezePanes(r: nat, c: nat)
      modifies this
      ensures freeze == Some((r, c))
      ensures cells == old(cells) && filter == old(filter)
    {
      freeze := Some((r, c));
    }

    method Autofilter(firstRow: nat, firstCol: nat, lastRow: nat, lastCol: nat)
      modifies this
      ensures filter == Some(Range(firstRow, firstCol, lastRow, lastCol))
      ensures cells == old(cells) && freeze == old(freeze)
    {
      filter := Some(Range(firstRow, firstCol, lastRow, lastCol));
    }

    function Snapshot(): Sheet
      reads this
    {
      Sheet(cells, freeze, filter)
    }
  }

  // ---------------------------------------------------------------------------
  // The expected grid
  // ---------------------------------------------------------------------------

  /**
   * What position `p` of the sheet holds once the result is written: the bold
   * column name in row 0, the rendered cell of result row `p.0 - 1` below,
   * and nothing outside the columns and rows of the result.
   */
  function Expected(fields: seq<Field>, rows: seq<Row>, p: (nat, nat)): Option<Cell> {
    if p.1 >= |fields| then None
    else if p.0 == 0 then Some(Cell(TextValue(fields[p.1].name), Some(Bold)))
    else if p.0 > |rows| || !Implemented(fields[p.1].kind) then None
    else
      match Render(fields[p.1].kind, p.1, rows[p.0 - 1])
      case Ok(cell) => cell
      case Fail(_) => None
  }

  /** The positions of the header and of the result rows. */
  function Positions(height: nat, width: nat): set<(nat, nat)> {
    set r: nat, c: nat | r < height && c < width :: (r, c)
  }

  /** The grid of a written result. */
  function Grid(fields: seq<Field>, rows: seq<Row>): map<(nat, nat), Cell> {
    map p | p in Positions(|rows| + 1, |fields|) && Expected(fields, rows, p).Some? :: Expected(fields, rows, p).value
  }

  /** The grid holds exactly the expected cells. */
  lemma GridCells(fields: seq<Field>, rows: seq<Row>, p: (nat, nat))
    ensures p in Grid(fields, rows) <==> Expected(fields, rows, p).Some?
    ensures p in Grid(fields, rows) ==> Grid(fields, rows)[p] == Expected(fields, rows, p).value
  {
    if Expected(fields, rows, p).Some? {
      assert p in Positions(|rows| + 1, |fields|);
    }
  }

  /** Every column name is in row 0, in bold. */
  lemma GridHeader(fields: seq<Field>, rows: seq<Row>, c: nat)
    requires c < |fields|
    ensures (0, c) in Grid(fields, rows)
    ensures Grid(fields, rows)[(0, c)] == Cell(TextValue(fields[c].name), Some(Bold))
  {
    GridCells(fields, rows, (0, c));
  }

  /**
   * Result row `r` is in sheet row `r + 1`: column `c` holds the cell its
   * renderer gives, with the kind's format, or nothing for a null temporal value.
   */
  lemma GridData(fields: seq<Field>, rows: seq<Row>, r: nat, c: nat)
    requires Convertible(fields, rows)
    requires r < |rows| && c < |fields|
    ensures Render(fields[c].kind, c, rows[r]).Ok?
    ensures (r + 1, c) in Grid(fields, rows) <==> Render(fields[c].kind, c, rows[r]).value.Some?
    ensures (r + 1, c) in Grid(fields, rows) ==>
      Grid(fields, rows)[(r + 1, c)] == Render(fields[c].kind, c, rows[r]).value.value
      && Grid(fields, rows)[(r + 1, c)].format == FormatOf(fields[c].kind)
    ensures (r + 1, c) !in Grid(fields, rows) <==>
      fields[c].kind in {FieldKind.Date, FieldKind.Time, DateTime, DateTimeTz} && rows[r].values[c].Null?
  {
    GridCells(fields, rows, (r + 1, c));
    RenderSkips(fields[c].kind, c, rows[r]);
    if Render(fields[c].kind, c, rows[r]).value.Some? {
      RenderFormat(fields[c].kind, c, rows[r]);
    }
  }

  /** Nothing is written right of the last column or below the last result row. */
  lemma GridBounds(fields: seq<Field>, rows: seq<Row>, p: (nat, nat))
    requires p.1 >= |fields| || p.0 > |rows|
    ensures p !in Grid(fields, rows)
  {
    GridCells(fields, rows, p);
  }

  /** Whether every column has a renderer and every cell renders. */
  predicate Convertible(fields: seq<Field>, rows: seq<Row>) {
    && (forall c :: 0 <= c < |fields| ==> Implemented(fields[c].kind))
    && (forall r, c :: 0 <= r < |rows| && 0 <= c < |fields| ==> Render(fields[c].kind, c, rows[r]).Ok?)
  }

  /** The autofilter the writer sets: rows 0 to `|rows| - 1`, every column. */
  function FilterRange(fields: seq<Field>, rows: seq<Row>): Range
    requires |rows| > 0 && |fields| > 0
  {
    Range(0, 0, |rows| - 1, |fields| - 1)
  }

  /**
   * The autofilter stops one row short of the data: the last result row is
   * in sheet row `|rows|`, outside the filter, while every cell above it and
   * the header are inside.
   */
  lemma FilterMissesLastRow(fields: seq<Field>, rows: seq<Row>)
    requires |rows| > 0 && |fields| > 0
    ensures forall c :: 0 <= c < |fields| ==> !InRange((|rows|, c), FilterRange(fields, rows))
    ensures forall r, c :: 0 <= r < |rows| && 0 <= c < |fields| ==> InRange((r, c), FilterRange(fields, rows))
    ensures forall c :: 0 <= c < |fields| && Expected(fields, rows, (|rows|, c)).Some? ==>
      (|rows|, c) in Grid(fields, rows) && !InRange((|rows|, c), FilterRange(fields, rows))
  {
    forall c | 0 <= c < |fields| && Expected(fields, rows, (|rows|, c)).Some?
      ensures (|rows|, c) in Grid(fields, rows)
    {
      GridCells(fields, rows, (|rows|, c));
    }
  }

  // ---------------------------------------------------------------------------
  // Writing
  // ---------------------------------------------------------------------------

  /** Whether sheet position `p` has been reached when the writer is at row `r`, column `c` of the result. */
  predicate Reached(p: (nat, nat), r: nat, c: nat) {
    p.0 <= r || (p.0 == r + 1 && p.1 < c)
  }

  /** Every written cell is the one expected at its position. */
  ghost predicate Agrees(m: map<(nat, nat), Cell>, fields: seq<Field>, rows: seq<Row>) {
    forall p :: p in m ==> Expected(fields, rows, p) == Some(m[p])
  }

  /** Exactly the positions reached at row `r`, column `c` that expect a cell are written. */
  ghost predicate Covers(m: map<(nat, nat), Cell>, fields: seq<Field>, rows: seq<Row>, r: nat, c: nat) {
    forall p :: p in m <==> Reached(p, r, c) && Expected(fields, rows, p).Some?
  }

  /** `convs` holds the renderer of every column. */
  ghost predicate RenderersOf(convs: seq<Renderer>, fields: seq<Field>) {
    && |convs| == |fields|
    && (forall i :: 0 <= i < |fields| ==> Implemented(fields[i].kind))
    && (forall i, k, row :: 0 <= i < |fields| ==> convs[i](k, row) == Render(fields[i].kind, k, row))
  }

  /** Writes a rendered cell, with its format when it has one. */
  method Put(ws: Worksheet, r: nat, c: nat, cell: Cell)
    modifies ws
    ensures ws.cells == old(ws.cells)[(r, c) := cell]
    ensures ws.freeze == old(ws.freeze) && ws.filter == old(ws.filter)
  {
    if cell.format.Some? {
      ws.WriteWithFormat(r, c, cell.value, cell.format.value);
    } else {
      ws.Write(r, c, cell.value);
    }
  }

  /** The header cells of columns `0` to `c - 1`, and nothing else, are written. */
  ghost predicate HeaderUpTo(m: map<(nat, nat), Cell>, c: nat) {
    forall p :: p in m <==> p.0 == 0 && p.1 < c
  }

  /** Writing column `c`'s name in bold extends an agreeing header by one column. */
  lemma HeaderStep(m: map<(nat, nat), Cell>, fields: seq<Field>, rows: seq<Row>, c: nat)
    requires c < |fields|
    requires Agrees(m, fields, rows) && HeaderUpTo(m, c)
    ensures Agrees(m[(0, c) := Cell(TextValue(fields[c].name), Some(Bold))], fields, rows)
    ensures HeaderUpTo(m[(0, c) := Cell(TextValue(fields[c].name), Some(Bold))], c + 1)
  {
  }

  /** A complete header is what the sheet holds before the first result row. */
  lemma HeaderCovers(m: map<(nat, nat), Cell>, fields: seq<Field>, rows: seq<Row>)
    requires HeaderUpTo(m, |fields|)
    ensures Covers(m, fields, rows, 0, 0)
  {
  }

  /**
   * The header pass: column `c`'s name is written in bold at `(0, c)`, then
   * its renderer is selected; a kind without one panics there.
   */
  method WriteHeader(ws: Worksheet, fields: seq<Field>, rows: seq<Row>) returns (convs: Result<seq<Renderer>>)
    requires ws.cells == map[]
    modifies ws
    ensures ws.freeze == old(ws.freeze) && ws.filter == old(ws.filter)
    ensures Agrees(ws.cells, fields, rows)
    ensures convs.Ok? <==> forall c :: 0 <= c < |fields| ==> Implemented(fields[c].kind)
    ensures convs.Fail? ==> convs.failure.Unimplemented?
    ensures convs.Fail? ==>
      exists c :: 0 <= c < |fields| && !Implemented(fields[c].kind)
        && (forall d :: 0 <= d < c ==> Implemented(fields[d].kind))
        && convs.failure == Unimplemented(fields[c].kind)
        && HeaderUpTo(ws.cells, c + 1)
    ensures convs.Ok? ==> RenderersOf(convs.value, fields) && Covers(ws.cells, fields, rows, 0, 0)
  {
    var acc: seq<Renderer> := [];
    for c := 0 to |fields|
      invariant ws.freeze == old(ws.freeze) && ws.filter == old(ws.filter)
      invariant |acc| == c
      invariant forall i :: 0 <= i < c ==> Implemented(fields[i].kind)
      invariant forall i, k, row :: 0 <= i < c ==> acc[i](k, row) == Render(fields[i].kind, k, row)
      invariant HeaderUpTo(ws.cells, c)
      invariant Agrees(ws.cells, fields, rows)
    {
      HeaderStep(ws.cells, fields, rows, c);
      ws.WriteWithFormat(0, c, TextValue(fields[c].name), Bold);
      var conv := Convert(fields[c]);
      if conv.Fail? {
        return Fail(conv.failure);
      }
      acc := acc + [conv.value];
    }
    HeaderCovers(ws.cells, fields, rows);
    return Ok(acc);
  }

  /** Writes result row `r` to sheet row `r + 1`, column by column; a cell that does not render panics. */
  method WriteRow(ws: Worksheet, fields: seq<Field>, convs: seq<Renderer>, rows: seq<Row>, r: nat)
    returns (failure: Option<Failure>)
    requires RenderersOf(convs, fields) && r < |rows|
    requires Agrees(ws.cells, fields, rows) && Covers(ws.cells, fields, rows, r, 0)
    modifies ws
    ensures ws.freeze == old(ws.freeze) && ws.filter == old(ws.filter)
    ensures Agrees(ws.cells, fields, rows)
    ensures failure.None? <==> forall c :: 0 <= c < |fields| ==> Render(fields[c].kind, c, rows[r]).Ok?
    ensures failure.Some? ==> failure.value.DecodePanic? || failure.value.DecimalNotF64?
    ensures failure.None? ==> Covers(ws.cells, fields, rows, r + 1, 0)
  {
    for c := 0 to |convs|
      invariant ws.freeze == old(ws.freeze) && ws.filter == old(ws.filter)
      invariant forall d :: 0 <= d < c ==> Render(fields[d].kind, d, rows[r]).Ok?
      invariant Agrees(ws.cells, fields, rows) && Covers(ws.cells, fields, rows, r, c)
    {
      var cell := convs[c](c, rows[r]);
      if cell.Fail? {
        return Some(cell.failure);
      }
      if cell.value.Some? {
        Put(ws, r + 1, c, cell.value.value);
      }
    }
    return None;
  }

  /** The row loop: result row `r` to sheet row `r + 1`, until a cell does not render. */
  method WriteRows(ws: Worksheet, fields: seq<Field>, convs: seq<Renderer>, rows: seq<Row>)
    returns (failure: Option<Failure>)
    requires RenderersOf(convs, fields)
    requires Agrees(ws.cells, fields, rows) && Covers(ws.cells, fields, rows, 0, 0)
    modifies ws
    ensures ws.freeze == old(ws.freeze) && ws.filter == old(ws.filter)
    ensures Agrees(ws.cells, fields, rows)
    ensures failure.None? <==> Convertible(fields, rows)
    ensures failure.Some? ==> failure.value.DecodePanic? || failure.value.DecimalNotF64?
    ensures failure.None? ==> Covers(ws.cells, fields, rows, |rows|, 0)
  {
    for r := 0 to |rows|
      invariant forall i, c :: 0 <= i < r && 0 <= c < |fields| ==> Render(fields[c].kind, c, rows[i]).Ok?
      invariant ws.freeze == old(ws.freeze) && ws.filter == old(ws.filter)
      invariant Agrees(ws.cells, fields, rows) && Covers(ws.cells, fields, rows, r, 0)
    {
      failure := WriteRow(ws, fields, convs, rows, r);
      if failure.Some? {
        return;
      }
    }
    return None;
  }

  /**
   * `XLSX::write`. The header row is frozen first. For a non-empty result
   * every column name is written in bold as its renderer is selected, then
   * every row is written below, then the autofilter is set and the workbook
   * saved. A panic, or an error from the autofilter (which a result without
   * columns gets, its last column being `0 - 1`), stops the writing and
   * nothing is saved. `sheet` is the worksheet as the writer leaves it.
   */
  method Write(result: seq<Row>, db: Backend) returns (sheet: Sheet, saved: Option<Sheet>, failure: Option<Failure>)
    ensures sheet.freeze == Some((1, 0))
    ensures failure.Some? ==> saved == None
    ensures |result| == 0 ==> failure == None && saved == None && sheet == Sheet(map[], Some((1, 0)), None)
    ensures |result| > 0 ==>
      (failure.None? <==> Convertible(Schema(db, result), result) && |result[0].columns| > 0)
    ensures |result| > 0 && failure.None? ==>
      var fields := Schema(db, result);
      saved == Some(sheet) && sheet == Sheet(Grid(fields, result), Some((1, 0)), Some(FilterRange(fields, result)))
    ensures |result| > 0 && failure.Some? ==>
      var fields := Schema(db, result);
      && sheet.filter == None
      && (forall p :: p in sheet.cells ==> Expected(fields, result, p) == Some(sheet.cells[p]))
      && (!(forall c :: 0 <= c < |fields| ==> Implemented(fields[c].kind)) ==> failure.value.Unimplemented?)
      && ((forall c :: 0 <= c < |fields| ==> Implemented(fields[c].kind)) && !Convertible(fields, result) ==>
            failure.value.DecodePanic? || failure.value.DecimalNotF64?)
      && (Convertible(fields, result) ==> failure == Some(AutofilterRange))
  {
    var ws := new Worksheet();
    ws.SetFreezePanes(1, 0);
    saved, failure := None, None;
    if |result| > 0 {
      var fields := Schema(db, result);
      var convs := WriteHeader(ws, fields, result);
      if convs.Fail? {
        return ws.Snapshot(), None, Some(convs.failure);
      }
      var rowsFailure := WriteRows(ws, fields, convs.value, result);
      if rowsFailure.Some? {
        return ws.Snapshot(), None, rowsFailure;
      }
      if |fields| == 0 {
        return ws.Snapshot(), None, Some(AutofilterRange);
      }
      ws.Autofilter(0, 0, |result| - 1, |fields| - 1);
      GridIs(ws.cells, fields, result);
      saved := Some(ws.Snapshot());
    }
    sheet := ws.Snapshot();
  }

  /** A map holding exactly the expected cells of every reached position is the grid. */
  lemma GridIs(m: map<(nat, nat), Cell>, fields: seq<Field>, rows: seq<Row>)
    requires Agrees(m, fields, rows) && Covers(m, fields, rows, |rows|, 0)
    ensures m == Grid(fields, rows)
  {
    forall p ensures p in m <==> p in Grid(fields, rows) {
      GridCells(fields, rows, p);
    }
    forall p | p in m ensures m[p] == Grid(fields, rows)[p] {
      GridCells(fields, rows, p);
    }
  }
}
