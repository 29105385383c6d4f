/**
 * The GitHub-flavoured Markdown table writer (src/conv/gfm.rs).
 *
 * Every cell is rendered to text, the width of each column is the longest
 * text in it (header included), a row of dashes is inserted under the
 * header, and every row is written as `| cell | cell |` with each cell
 * left-aligned and padded to its column's width. The file is a sequence of
 * lines; creating and writing it is not modelled.
 */
module Gfm {
  import opened Conv
  import Digits

  // ---------------------------------------------------------------------------
  // Cell renderer
  // ---------------------------------------------------------------------------

  /** `Default::default().to_string()` of the three naive temporal types. */
  const DefaultDate := "1970-01-01"
  const DefaultTime := "00:00:00"
  const DefaultDateTime := "1970-01-01 00:00:00"

  /**
   * The text of a value that decodes as kind `k`. A null temporal value is
   * rendered as its type's default; `localEpoch` is the text of the default
   * local timestamp, which depends on the machine's time zone.
   */
  function CellText(k: FieldKind, v: Raw, localEpoch: string): string
    requires Implemented(k) && Decodes(k, v)
  {
    match k
    case Int8 | Int16 | Int32 | Int64 => Digits.IntText(v.i)
    case Float32 | Float64 => v.f.text
    case Str => v.s
    case Bool => if v.b then "true" else "false"
    case Decimal => v.d.text
    case Date => if v.Null? then DefaultDate else v.t.text
    case Time => if v.Null? then DefaultTime else v.t.text
    case DateTime => if v.Null? then DefaultDateTime else v.t.text
    case DateTimeTz => if v.Null? then localEpoch else v.z.text
    case Json => v.doc.text
  }

  /** The renderer bound to column `c` of a kind that has one. */
  function Render(k: FieldKind, c: nat, row: Row, localEpoch: string): (r: Result<string>)
    requires Implemented(k)
    ensures r.Ok? <==> c < |row.values| && Decodes(k, row.values[c])
    ensures r.Fail? ==> r.failure == DecodePanic(c)
  {
    var v :- Fetch(k, row, c);
    Ok(CellText(k, v, localEpoch))
  }

  /** A renderer as the source keeps it: a function of the column index and the row. */
  type Renderer = (nat, Row) -> Result<string>

  /** Renderer selection: a `todo!()` for the unsigned kinds and `Unknown`. */
  function Convert(f: Field, localEpoch: string): (r: Result<Renderer>)
    ensures r.Ok? <==> Implemented(f.kind)
    ensures r.Fail? ==> r.failure == Unimplemented(f.kind)
    ensures r.Ok? ==> forall c, row :: r.value(c, row) == Render(f.kind, c, row, localEpoch)
  {
    if Implemented(f.kind) then Ok((c: nat, row: Row) => Render(f.kind, c, row, localEpoch))
    else Fail(Unimplemented(f.kind))
  }

  /** Integer cells are the decimal text of the value, which reads back as that value. */
  lemma RenderInteger(k: FieldKind, c: nat, row: Row, localEpoch: string)
    requires k in {Int8, Int16, Int32, Int64}
    requires c < |row.values| && Decodes(k, row.values[c])
    ensures Render(k, c, row, localEpoch) == Ok(Digits.IntText(row.values[c].i))
    ensures Digits.ParseInt(Render(k, c, row, localEpoch).value) == row.values[c].i
  {
    Digits.IntTextRoundTrip(row.values[c].i);
  }

  /** A null temporal value is rendered as the default value's text, never as a blank cell. */
  lemma RenderNullTemporal(k: FieldKind, c: nat, row: Row, localEpoch: string)
    requires k in {Date, Time, DateTime, DateTimeTz}
    requires c < |row.values| && row.values[c] == Null
    ensures Render(k, c, row, localEpoch).Ok?
    ensures Render(k, c, row, localEpoch).value ==
      match k
      case Date => DefaultDate
      case Time => DefaultTime
      case DateTime => DefaultDateTime
      case _ => localEpoch
    ensures k != DateTimeTz ==> Render(k, c, row, localEpoch).value != ""
  {
  }

  /** A stored NULL in a column of any other kind makes the driver panic. */
  lemma RenderNullOther(k: FieldKind, c: nat, row: Row, localEpoch: string)
    requires Implemented(k) && k !in {Date, Time, DateTime, DateTimeTz}
    requires c < |row.values| && row.values[c] == Null
    ensures Render(k, c, row, localEpoch) == Fail(DecodePanic(c))
  {
  }

  // ---------------------------------------------------------------------------
  // Rendering the result
  // ---------------------------------------------------------------------------

  /** The renderers of all columns, collected in column order; the first kind without one panics. */
  function ConvertAll(fields: seq<Field>, localEpoch: string): (r: Result<seq<Renderer>>)
    ensures r.Ok? <==> forall i :: 0 <= i < |fields| ==> Implemented(fields[i].kind)
    ensures r.Ok? ==> |r.value| == |fields|
    ensures r.Ok? ==> forall i, c, row :: 0 <= i < |fields| ==>
      r.value[i](c, row) == Render(fields[i].kind, c, row, localEpoch)
    ensures r.Fail? ==>
      exists i :: 0 <= i < |fields| && !Implemented(fields[i].kind) && r.failure == Unimplemented(fields[i].kind)
  {
    CollectAll(fields, (f: Field) => Convert(f, localEpoch))
  }

  /** Every row rendered, in source order; the first row that does not render aborts the body. */
  function RenderRows(convs: seq<Renderer>, rows: seq<Row>): (r: Result<seq<seq<string>>>)
    ensures r.Ok? <==> forall i :: 0 <= i < |rows| ==> ApplyAll(convs, rows[i]).Ok?
    ensures r.Ok? ==> |r.value| == |rows|
    ensures r.Ok? ==> forall i :: 0 <= i < |rows| ==> r.value[i] == ApplyAll(convs, rows[i]).value
    ensures r.Fail? ==>
      exists i :: 0 <= i < |rows| && ApplyAll(convs, rows[i]) == Fail(r.failure)
        && forall j :: 0 <= j < i ==> ApplyAll(convs, rows[j]).Ok?
  {
    CollectAll(rows, (row: Row) => ApplyAll(convs, row))
  }

  /** Whether every cell of one row renders. */
  predicate RowRenderable(fields: seq<Field>, row: Row, localEpoch: string)
    requires forall c :: 0 <= c < |fields| ==> Implemented(fields[c].kind)
  {
    forall c :: 0 <= c < |fields| ==> Render(fields[c].kind, c, row, localEpoch).Ok?
  }

  /** Whether every column has a renderer and every cell of the result renders. */
  predicate Renderable(fields: seq<Field>, rows: seq<Row>, localEpoch: string) {
    && (forall c :: 0 <= c < |fields| ==> Implemented(fields[c].kind))
    && (forall r :: 0 <= r < |rows| ==> RowRenderable(fields, rows[r], localEpoch))
  }

  /** One rendered row: cell `c` is column `c`'s renderer applied to the row. */
  function BodyRow(fields: seq<Field>, row: Row, localEpoch: string): (cells: seq<string>)
    requires forall c :: 0 <= c < |fields| ==> Implemented(fields[c].kind)
    requires RowRenderable(fields, row, localEpoch)
  {
    seq(|fields|, c requires 0 <= c < |fields| => Render(fields[c].kind, c, row, localEpoch).value)
  }

  /** The rendered body, one row of cells per result row. */
  function Body(fields: seq<Field>, rows: seq<Row>, localEpoch: string): (body: seq<seq<string>>)
    requires Renderable(fields, rows, localEpoch)
  {
    seq(|rows|, r requires 0 <= r < |rows| => BodyRow(fields, rows[r], localEpoch))
  }

  /** The column names, in column order. */
  function Names(fields: seq<Field>): (head: seq<string>)
    ensures |head| == |fields|
    ensures forall i :: 0 <= i < |fields| ==> head[i] == fields[i].name
  {
    seq(|fields|, i requires 0 <= i < |fields| => fields[i].name)
  }

  // ---------------------------------------------------------------------------
  // Column widths
  // ---------------------------------------------------------------------------

  function Max(a: nat, b: nat): nat {
    if a < b then b else a
  }

  /**
   * The width of column `i`: the longest of the header text and of cell `i`
   * of every row that has one.
   */
  function ColumnWidth(h: string, body: seq<seq<string>>, i: nat): nat {
    if body == [] then |h|
    else
      var last := body[|body| - 1];
      Max(ColumnWidth(h, body[..|body| - 1], i), if i < |last| then |last[i]| else 0)
  }

  /** The column width is the maximum length: no cell is longer and one of them is that long. */
  lemma {:induction false} ColumnWidthIsMax(h: string, body: seq<seq<string>>, i: nat)
    ensures |h| <= ColumnWidth(h, body, i)
    ensures forall r :: 0 <= r < |body| && i < |body[r]| ==> |body[r][i]| <= ColumnWidth(h, body, i)
    ensures ColumnWidth(h, body, i) == |h| ||
      exists r :: 0 <= r < |body| && i < |body[r]| && ColumnWidth(h, body, i) == |body[r][i]|
  {
    if body != [] {
      var init := body[..|body| - 1];
      ColumnWidthIsMax(h, init, i);
      assert forall r :: 0 <= r < |init| ==> init[r] == body[r];
      if ColumnWidth(h, body, i) != |h| && ColumnWidth(h, body, i) == ColumnWidth(h, init, i) {
        var r :| 0 <= r < |init| && i < |init[r]| && ColumnWidth(h, init, i) == |init[r][i]|;
        assert body[r] == init[r];
      }
    }
  }

  /** The widths of all columns, one per header column. */
  function Widths(head: seq<string>, body: seq<seq<string>>): (lens: seq<nat>)
    ensures |lens| == |head|
  {
    seq(|head|, i requires 0 <= i < |head| => ColumnWidth(head[i], body, i))
  }

  /**
   * The fold of the source: start from the header lengths and, row by row,
   * raise each entry to the length of the row's cell in that column.
   */
  method ColumnWidths(head: seq<string>, body: seq<seq<string>>) returns (lens: seq<nat>)
    ensures lens == Widths(head, body)
  {
    lens := seq(|head|, i requires 0 <= i < |head| => |head[i]|);
    var k := 0;
    while k < |body|
      invariant 0 <= k <= |body|
      invariant |lens| == |head|
      invariant forall i :: 0 <= i < |head| ==> lens[i] == ColumnWidth(head[i], body[..k], i)
    {
      var rw := body[k];
      assert body[..k + 1][..k] == body[..k];
      var j := 0;
      while j < |lens| && j < |rw|
        invariant 0 <= j <= |lens|
        invariant |lens| == |head|
        invariant forall i :: 0 <= i < j ==> lens[i] == ColumnWidth(head[i], body[..k + 1], i)
        invariant forall i :: j <= i < |head| ==> lens[i] == ColumnWidth(head[i], body[..k], i)
      {
        lens := lens[j := Max(|rw[j]|, lens[j])];
        j := j + 1;
      }
      k := k + 1;
    }
    assert body[..|body|] == body;
  }

  // ---------------------------------------------------------------------------
  // Lines
  // ---------------------------------------------------------------------------

  function Repeat(ch: char, n: nat): (s: string)
    ensures |s| == n
    ensures forall i :: 0 <= i < n ==> s[i] == ch
  {
    seq(n, _ => ch)
  }

  /** The separator row: `lens[i]` dashes in column `i`. */
  function Separator(lens: seq<nat>): (sep: seq<string>)
    ensures |sep| == |lens|
  {
    seq(|lens|, i requires 0 <= i < |lens| => Repeat('-', lens[i]))
  }

  /** `format!("{cell:<width$}")`: the cell left-aligned, filled with spaces up to `width`. */
  function Pad(cell: string, width: nat): (p: string)
    ensures |p| == Max(|cell|, width)
    ensures p[..|cell|] == cell
    ensures forall i :: |cell| <= i < |p| ==> p[i] == ' '
  {
    if |cell| < width then cell + Repeat(' ', width - |cell|) else cell
  }

  /** The padded cells of a row, paired with the widths (the shorter of the two decides). */
  function Padded(row: seq<string>, lens: seq<nat>): (parts: seq<string>)
    ensures |parts| == if |row| < |lens| then |row| else |lens|
  {
    var n := if |row| < |lens| then |row| else |lens|;
    seq(n, i requires 0 <= i < n => " " + Pad(row[i], lens[i]) + " ")
  }

  /** `parts.join("|")`. */
  function Join(parts: seq<string>): string {
    if |parts| == 0 then ""
    else if |parts| == 1 then parts[0]
    else Join(parts[..|parts| - 1]) + "|" + parts[|parts| - 1]
  }

  /** One output line: `|` + the padded cells joined by `|` + `|`. */
  function Line(row: seq<string>, lens: seq<nat>): string {
    "|" + Join(Padded(row, lens)) + "|"
  }

  /** The whole file: the header line, the separator line, then one line per body row. */
  function Table(head: seq<string>, body: seq<seq<string>>): seq<string> {
    var lens := Widths(head, body);
    [Line(head, lens), Line(Separator(lens), lens)] +
      seq(|body|, r requires 0 <= r < |body| => Line(body[r], lens))
  }

  // ---------------------------------------------------------------------------
  // Layout of a line
  // ---------------------------------------------------------------------------

  /** Position of the bar that opens column `j` (or closes the line, for `j == |lens|`). */
  function Offset(lens: seq<nat>, j: nat): nat
    requires j <= |lens|
  {
    if j == 0 then 0 else Offset(lens, j - 1) + lens[j - 1] + 3
  }

  /** The length of every line of a table whose columns have these widths. */
  function LineWidth(lens: seq<nat>): nat {
    if |lens| == 0 then 2 else Offset(lens, |lens|) + 1
  }

  lemma {:induction false} OffsetPrefix(lens: seq<nat>, n: nat, j: nat)
    requires j <= n <= |lens|
    ensures Offset(lens[..n], j) == Offset(lens, j)
    decreases j
  {
    if j > 0 {
      OffsetPrefix(lens, n, j - 1);
    }
  }

  /** A bar, then each part followed by a bar. */
  function Framed(parts: seq<string>): (line: string)
    ensures 0 < |line| && line[0] == '|'
  {
    if parts == [] then "|" else Framed(parts[..|parts| - 1]) + parts[|parts| - 1] + "|"
  }

  lemma {:induction false} JoinFramed(parts: seq<string>)
    requires |parts| > 0
    ensures "|" + Join(parts) + "|" == Framed(parts)
    decreases |parts|
  {
    if |parts| > 1 {
      var init := parts[..|parts| - 1];
      JoinFramed(init);
      assert init[..|init| - 1] == parts[..|parts| - 2];
    }
  }

  /** The text between the bars of column `j`. */
  function Between(line: string, lens: seq<nat>, j: nat): string
    requires j < |lens| && Offset(lens, j + 1) <= |line|
  {
    line[Offset(lens, j) + 1 .. Offset(lens, j + 1)]
  }

  /** Parts of widths `lens[i] + 2` framed by bars make a line of `Offset(lens, |lens|) + 1` characters. */
  lemma {:induction false} FramedLength(parts: seq<string>, lens: seq<nat>)
    requires |parts| == |lens|
    requires forall i :: 0 <= i < |parts| ==> |parts[i]| == lens[i] + 2
    ensures |Framed(parts)| == Offset(lens, |lens|) + 1
    decreases |parts|
  {
    var n := |parts|;
    if n > 0 {
      FramedLength(parts[..n - 1], lens[..n - 1]);
      OffsetPrefix(lens, n - 1, n - 1);
    }
  }

  /** Framing the first `k` parts gives a prefix of framing them all. */
  lemma {:induction false} FramedPrefix(parts: seq<string>, k: nat)
    requires k <= |parts|
    ensures |Framed(parts[..k])| <= |Framed(parts)|
    ensures Framed(parts)[..|Framed(parts[..k])|] == Framed(parts[..k])
    decreases |parts| - k
  {
    if k < |parts| {
      FramedPrefix(parts, k + 1);
      assert parts[..k + 1][..k] == parts[..k];
      var f := Framed(parts[..k]);
      var g := Framed(parts[..k + 1]);
      assert g == f + parts[k] + "|";
      assert g[..|f|] == f;
    } else {
      assert parts[..k] == parts;
    }
  }

  /** The bar that opens column `j` (or closes the line) is at `Offset(lens, j)`. */
  lemma FramedBarAt(parts: seq<string>, lens: seq<nat>, j: nat)
    requires |parts| == |lens|
    requires forall i :: 0 <= i < |parts| ==> |parts[i]| == lens[i] + 2
    requires j <= |lens|
    ensures Offset(lens, j) < |Framed(parts)|
    ensures Framed(parts)[Offset(lens, j)] == '|'
  {
    FramedPrefix(parts, j);
    FramedLength(parts[..j], lens[..j]);
    OffsetPrefix(lens, j, j);
    var p := Framed(parts[..j]);
    assert p[|p| - 1] == '|';
  }

  /** Between the bars of column `j` lies part `j`. */
  lemma FramedBetweenAt(parts: seq<string>, lens: seq<nat>, j: nat)
    requires |parts| == |lens|
    requires forall i :: 0 <= i < |parts| ==> |parts[i]| == lens[i] + 2
    requires j < |lens|
    ensures Offset(lens, j + 1) <= |Framed(parts)|
    ensures Between(Framed(parts), lens, j) == parts[j]
  {
    FramedPrefix(parts, j + 1);
    FramedLength(parts[..j], lens[..j]);
    OffsetPrefix(lens, j, j);
    var f := Framed(parts[..j]);
    var p := Framed(parts[..j + 1]);
    assert parts[..j + 1][..j] == parts[..j];
    assert p == f + parts[j] + "|";
    assert |f| == Offset(lens, j) + 1;
    assert Offset(lens, j + 1) == |f| + |parts[j]|;
    assert p[|f| .. |f| + |parts[j]|] == parts[j];
    SliceOfPrefix(Framed(parts), p, |f|, |f| + |parts[j]|);
  }

  lemma SliceOfPrefix(whole: string, p: string, a: nat, b: nat)
    requires |p| <= |whole| && whole[..|p|] == p
    requires a <= b <= |p|
    ensures whole[a..b] == p[a..b]
  {
    assert forall i :: a <= i < b ==> whole[i] == whole[..|p|][i];
  }

  /**
   * A row whose cells fit their widths is laid out on a line of
   * `LineWidth(lens)` characters, with a bar at every column offset and, between
   * the bars of column `j`, the cell padded to `lens[j]` with one space either side.
   */
  lemma LineLayout(row: seq<string>, lens: seq<nat>)
    requires |row| == |lens|
    requires forall i :: 0 <= i < |row| ==> |row[i]| <= lens[i]
    ensures |Line(row, lens)| == LineWidth(lens)
    ensures forall j :: 0 <= j <= |lens| ==> Offset(lens, j) < LineWidth(lens)
    ensures forall j :: 0 <= j <= |lens| ==> Line(row, lens)[Offset(lens, j)] == '|'
    ensures forall j :: 0 <= j < |lens| ==> Between(Line(row, lens), lens, j) == " " + Pad(row[j], lens[j]) + " "
  {
    var parts := Padded(row, lens);
    if |lens| > 0 {
      JoinFramed(parts);
      FramedLength(parts, lens);
      forall j | 0 <= j <= |lens|
        ensures Offset(lens, j) < |Line(row, lens)| && Line(row, lens)[Offset(lens, j)] == '|'
      {
        FramedBarAt(parts, lens, j);
      }
      forall j | 0 <= j < |lens| ensures Between(Line(row, lens), lens, j) == parts[j] {
        FramedBetweenAt(parts, lens, j);
      }
    }
  }

  /** Every header name and body cell fits the width of its column. */
  lemma CellsFit(head: seq<string>, body: seq<seq<string>>)
    requires forall r :: 0 <= r < |body| ==> |body[r]| == |head|
    ensures forall j :: 0 <= j < |head| ==> |head[j]| <= Widths(head, body)[j]
    ensures forall r, j :: 0 <= r < |body| && 0 <= j < |head| ==> |body[r][j]| <= Widths(head, body)[j]
  {
    forall j | 0 <= j < |head|
      ensures |head[j]| <= Widths(head, body)[j]
      ensures forall r :: 0 <= r < |body| ==> |body[r][j]| <= Widths(head, body)[j]
    {
      ColumnWidthIsMax(head[j], body, j);
    }
  }

  /**
   * `line` is `row` laid out on the widths `lens`: it is `LineWidth(lens)`
   * characters long, has a bar at every column offset and, between the bars of
   * column `j`, the cell padded to `lens[j]` with one space either side.
   */
  ghost predicate Laid(line: string, row: seq<string>, lens: seq<nat>)
    requires |row| == |lens|
  {
    && |line| == LineWidth(lens)
    && (forall j :: 0 <= j <= |lens| ==> Offset(lens, j) < |line| && line[Offset(lens, j)] == '|')
    && (forall j :: 0 <= j < |lens| ==> Between(line, lens, j) == " " + Pad(row[j], lens[j]) + " ")
  }

  lemma LineLaid(row: seq<string>, lens: seq<nat>)
    requires |row| == |lens|
    requires forall i :: 0 <= i < |row| ==> |row[i]| <= lens[i]
    ensures Laid(Line(row, lens), row, lens)
  {
    LineLayout(row, lens);
  }

  /** The separator cell of column `j` fills its column with exactly `lens[j]` dashes. */
  lemma SeparatorFills(lens: seq<nat>, j: nat)
    requires j < |lens|
    ensures Pad(Separator(lens)[j], lens[j]) == Repeat('-', lens[j])
  {
  }

  /**
   * The layout of the whole table, for a body with one cell per header column:
   * the header line, the separator line and one line per body row, all laid out
   * on the same widths, so all of the same width and with their bars at the
   * same offsets.
   */
  lemma TableLayout(head: seq<string>, body: seq<seq<string>>)
    requires forall r :: 0 <= r < |body| ==> |body[r]| == |head|
    ensures |Table(head, body)| == |body| + 2
    ensures Laid(Table(head, body)[0], head, Widths(head, body))
    ensures Laid(Table(head, body)[1], Separator(Widths(head, body)), Widths(head, body))
    ensures forall i :: 2 <= i < |body| + 2 ==> Laid(Table(head, body)[i], body[i - 2], Widths(head, body))
  {
    TableHeadLaid(head, body);
    TableSeparatorLaid(head, body);
    forall i | 2 <= i < |body| + 2 ensures Laid(Table(head, body)[i], body[i - 2], Widths(head, body)) {
      TableBodyLaid(head, body, i - 2);
    }
  }

  lemma TableHeadLaid(head: seq<string>, body: seq<seq<string>>)
    requires forall r :: 0 <= r < |body| ==> |body[r]| == |head|
    ensures Laid(Table(head, body)[0], head, Widths(head, body))
  {
    CellsFit(head, body);
    LineLaid(head, Widths(head, body));
  }

  lemma TableSeparatorLaid(head: seq<string>, body: seq<seq<string>>)
    ensures Laid(Table(head, body)[1], Separator(Widths(head, body)), Widths(head, body))
  {
    LineLaid(Separator(Widths(head, body)), Widths(head, body));
  }

  lemma TableBodyLaid(head: seq<string>, body: seq<seq<string>>, r: nat)
    requires forall r :: 0 <= r < |body| ==> |body[r]| == |head|
    requires r < |body|
    ensures Laid(Table(head, body)[r + 2], body[r], Widths(head, body))
  {
    var lens := Widths(head, body);
    assert Table(head, body)[r + 2] == Line(body[r], lens);
    forall j | 0 <= j < |head| ensures |body[r][j]| <= lens[j] {
      ColumnWidthIsMax(head[j], body, j);
    }
    LineLaid(body[r], lens);
  }

  /**
   * The table written for a renderable result has a line per row plus the
   * header and the separator, all of the same width, and line `r + 2` lays out
   * the rendered cells of row `r`.
   */
  lemma ResultTableLayout(fields: seq<Field>, rows: seq<Row>, localEpoch: string)
    requires Renderable(fields, rows, localEpoch)
    ensures |Table(Names(fields), Body(fields, rows, localEpoch))| == |rows| + 2
    ensures forall i :: 0 <= i < |rows| + 2 ==>
      |Table(Names(fields), Body(fields, rows, localEpoch))[i]| == LineWidth(Widths(Names(fields), Body(fields, rows, localEpoch)))
    ensures forall r :: 0 <= r < |rows| ==>
      Laid(Table(Names(fields), Body(fields, rows, localEpoch))[r + 2], BodyRow(fields, rows[r], localEpoch),
        Widths(Names(fields), Body(fields, rows, localEpoch)))
  {
    var head := Names(fields);
    var body := Body(fields, rows, localEpoch);
    BodyShape(fields, rows, localEpoch);
    TableLayout(head, body);
    LaidWidths(head, body);
  }

  /** The body has a row of one cell per column for every result row. */
  lemma BodyShape(fields: seq<Field>, rows: seq<Row>, localEpoch: string)
    requires Renderable(fields, rows, localEpoch)
    ensures |Body(fields, rows, localEpoch)| == |rows|
    ensures forall r :: 0 <= r < |rows| ==> Body(fields, rows, localEpoch)[r] == BodyRow(fields, rows[r], localEpoch)
    ensures forall r :: 0 <= r < |rows| ==> |Body(fields, rows, localEpoch)[r]| == |Names(fields)|
  {
  }

  /** Laid-out lines all have the table's width. */
  lemma LaidWidths(head: seq<string>, body: seq<seq<string>>)
    requires forall r :: 0 <= r < |body| ==> |body[r]| == |head|
    requires |Table(head, body)| == |body| + 2
    requires Laid(Table(head, body)[0], head, Widths(head, body))
    requires Laid(Table(head, body)[1], Separator(Widths(head, body)), Widths(head, body))
    requires forall i :: 2 <= i < |body| + 2 ==> Laid(Table(head, body)[i], body[i - 2], Widths(head, body))
    ensures forall i :: 0 <= i < |body| + 2 ==> |Table(head, body)[i]| == LineWidth(Widths(head, body))
    ensures forall r :: 0 <= r < |body| ==> Laid(Table(head, body)[r + 2], body[r], Widths(head, body))
  {
    var t := Table(head, body);
    var lens := Widths(head, body);
    forall i | 0 <= i < |body| + 2 ensures |t[i]| == LineWidth(lens) {
      if i >= 2 {
        assert Laid(t[i], body[i - 2], lens);
      }
    }
    forall r | 0 <= r < |body| ensures Laid(t[r + 2], body[r], lens) {
      assert Laid(t[(r + 2)], body[(r + 2) - 2], lens);
    }
  }

  /** `body.insert(i, x)`. */
  function Insert(rows: seq<seq<string>>, i: nat, x: seq<string>): (r: seq<seq<string>>)
    requires i <= |rows|
    ensures |r| == |rows| + 1 && r[i] == x
    ensures forall j :: 0 <= j < i ==> r[j] == rows[j]
    ensures forall j :: i < j < |r| ==> r[j] == rows[j - 1]
  {
    rows[..i] + [x] + rows[i..]
  }

  /** Writes one line per row, in order. */
  method WriteLines(rows: seq<seq<string>>, lens: seq<nat>) returns (lines: seq<string>)
    ensures |lines| == |rows|
    ensures forall i :: 0 <= i < |rows| ==> lines[i] == Line(rows[i], lens)
  {
    lines := [];
    for i := 0 to |rows|
      invariant |lines| == i
      invariant forall j :: 0 <= j < i ==> lines[j] == Line(rows[j], lens)
    {
      lines := lines + [Line(rows[i], lens)];
    }
  }

  /** Rendering one row with the collected renderers succeeds exactly when all its cells render, and gives its cells. */
  lemma RenderRowIsBodyRow(fields: seq<Field>, convs: seq<Renderer>, row: Row, localEpoch: string)
    requires ConvertAll(fields, localEpoch) == Ok(convs)
    ensures forall c :: 0 <= c < |fields| ==> Implemented(fields[c].kind)
    ensures ApplyAll(convs, row).Ok? <==> RowRenderable(fields, row, localEpoch)
    ensures ApplyAll(convs, row).Ok? ==> ApplyAll(convs, row).value == BodyRow(fields, row, localEpoch)
    ensures ApplyAll(convs, row).Fail? ==> ApplyAll(convs, row).failure.DecodePanic?
  {
    assert forall c :: 0 <= c < |fields| ==> convs[c](c, row) == Render(fields[c].kind, c, row, localEpoch);
  }

  /** Rendering with the collected renderers succeeds exactly on a renderable result and gives its body. */
  lemma RenderRowsIsBody(fields: seq<Field>, convs: seq<Renderer>, rows: seq<Row>, localEpoch: string)
    requires ConvertAll(fields, localEpoch) == Ok(convs)
    ensures RenderRows(convs, rows).Ok? <==> Renderable(fields, rows, localEpoch)
    ensures RenderRows(convs, rows).Ok? ==> RenderRows(convs, rows).value == Body(fields, rows, localEpoch)
    ensures RenderRows(convs, rows).Fail? ==> RenderRows(convs, rows).failure.DecodePanic?
  {
    forall r | 0 <= r < |rows|
      ensures ApplyAll(convs, rows[r]).Ok? <==> RowRenderable(fields, rows[r], localEpoch)
      ensures ApplyAll(convs, rows[r]).Ok? ==> ApplyAll(convs, rows[r]).value == BodyRow(fields, rows[r], localEpoch)
      ensures ApplyAll(convs, rows[r]).Fail? ==> ApplyAll(convs, rows[r]).failure.DecodePanic?
    {
      RenderRowIsBodyRow(fields, convs, rows[r], localEpoch);
    }
  }

  /** The lines written for the body with the header and the separator inserted are the table. */
  lemma LinesAreTable(head: seq<string>, body: seq<seq<string>>, lines: seq<string>)
    requires var lens := Widths(head, body);
      var rows := Insert(Insert(body, 0, head), 1, Separator(lens));
      |lines| == |rows| && forall i :: 0 <= i < |rows| ==> lines[i] == Line(rows[i], lens)
    ensures lines == Table(head, body)
  {
    var lens := Widths(head, body);
    var rows := Insert(Insert(body, 0, head), 1, Separator(lens));
    var t := Table(head, body);
    assert |t| == |lines|;
    forall i | 0 <= i < |t|
      ensures lines[i] == t[i]
    {
      if i >= 2 {
        assert rows[i] == body[i - 2];
      }
    }
  }

  /** Sizes the columns, inserts the header and the separator above the body, and writes every row. */
  method WriteTable(head: seq<string>, body: seq<seq<string>>) returns (lines: seq<string>)
    ensures lines == Table(head, body)
  {
    var lens := ColumnWidths(head, body);
    var rows := Insert(body, 0, head);
    rows := Insert(rows, 1, Separator(lens));
    lines := WriteLines(rows, lens);
    LinesAreTable(head, body, lines);
  }

  /**
   * `GFM::write`: nothing for an empty result; otherwise the table of the
   * result, or the panic that aborts it before the file is created.
   */
  method Write(result: seq<Row>, db: Backend, localEpoch: string) returns (out: Result<Option<seq<string>>>)
    ensures |result| == 0 ==> out == Ok(None)
    ensures |result| > 0 ==> (out.Ok? <==> Renderable(Schema(db, result), result, localEpoch))
    ensures |result| > 0 && out.Ok? ==>
      var fields := Schema(db, result);
      out.value == Some(Table(Names(fields), Body(fields, result, localEpoch)))
    ensures out.Fail? ==> out.failure.Unimplemented? || out.failure.DecodePanic?
    ensures |result| > 0 && !(forall c :: 0 <= c < |Schema(db, result)| ==> Implemented(Schema(db, result)[c].kind)) ==>
      out.Fail? && out.failure.Unimplemented?
    ensures |result| > 0 && (forall c :: 0 <= c < |Schema(db, result)| ==> Implemented(Schema(db, result)[c].kind)) && out.Fail? ==>
      out.failure.DecodePanic?
  {
    if |result| == 0 {
      return Ok(None);
    }
    var columns := Schema(db, result);
    var convs := ConvertAll(columns, localEpoch);
    if convs.Fail? {
      return Fail(convs.failure);
    }
    var head := Names(columns);
    var rendered := RenderRows(convs.value, result);
    RenderRowsIsBody(columns, convs.value, result, localEpoch);
    if rendered.Fail? {
      return Fail(rendered.failure);
    }
    var lines := WriteTable(head, rendered.value);
    return Ok(Some(lines));
  }
}
