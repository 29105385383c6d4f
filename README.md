# sql2any conversion engine in Dafny

This project models the conversion engine of sql2any (`src/conv/`). sql2any
exports the result of one SQL query, run against Postgres or MySQL, to one of
three file formats.

- **Type classifier** (`conv.dfy`, module `Conv`).
  - A column's backend type name is lower-cased. It is then classified into the canonical `FieldKind`.
  - `"timestamp"` is decided per backend: naive under Postgres, zoned under MySQL.
  - Every other name goes through one shared table. A name outside the table is `Unknown` and carries its lower-cased spelling.
  - `Conv` also holds the row model the writers read:
    - a row is its column metadata and a sequence of tagged stored values;
    - `Fetch` stands for the driver's typed `get`, which panics when a value does not decode as the requested type.
  - It also holds the plumbing shared by the writers. `CollectAll` selects the renderer of every column. `ApplyAll` runs one row through them.
- **Markdown table writer** (`gfm.dfy`, module `Gfm`, with `digits.dfy` for integer text).
  - Every cell is rendered to text. A null date or time becomes its type's default value.
  - The column widths are folded over the header and the body.
  - A row of dashes is inserted under the header.
  - Every row becomes a line `| cell | cell |`, with each cell padded to its column's width.
  - The proofs cover:
    - the widths are maxima;
    - the table has `rows + 2` lines, all of the same width;
    - a bar sits at every column boundary;
    - every column's slot holds the padded cell;
    - the separator cells are exactly `width` dashes;
    - an empty result writes nothing.
- **JSON writer** (`json.dfy`, module `Json`).
  - The file is `[`, then each row's object followed by a comma line (the last one too), then `]`.
  - Objects are maps from column name to rendered value. They are built by inserting the pairs in column order, so a later duplicate name wins.
  - The proofs cover:
    - the comma count equals the row count;
    - the exact text for an empty result;
    - the `",\n]\n"` ending otherwise;
    - lossless rendering of integers, strings, booleans, naive temporals and stored JSON;
    - what a panic leaves behind in the file.
- **Spreadsheet writer** (`xlsx.dfy`, module `Xlsx`).
  - A `Worksheet` class holds the written cells as a sparse grid, plus the freeze pane and the autofilter.
  - The writer freezes the header row and writes each column name in bold as the column's renderer is selected.
  - It writes result row `r` into sheet row `r + 1`, each cell carrying its kind's format tag. A null temporal value leaves its cell empty.
  - It then sets the autofilter and saves.
  - The proofs cover:
    - the saved sheet is exactly the expected grid, and nothing else;
    - the fixed format palette;
    - the autofilter's extent, which misses the last data row.

External values are data with the facts the program relies on:
- a float is its display text plus whether it is finite;
- a decimal is its text plus its optional `f64` conversion;
- dates and times are their display text;
- a local timestamp also carries its naive local reading;
- a stored JSON document is its compact serialization.

A `todo!()` or a failed `unwrap` in the source aborts the export. Here that is a `Failure` value, and each writer states what had been written when it happened.

Behaviours of the code worth knowing, each kept as written:
- **A null date or time in the Markdown table is not an empty cell.** `unwrap_or_default()` renders the default value's text (`Gfm.RenderNullTemporal`).
- **An unsupported kind does not become a placeholder column.** `todo!()` aborts the whole export, before any cell is read (`Failure.Unimplemented`).
- **The spreadsheet's freeze pane is set before anything else**, for an empty result too. An empty result saves no workbook at all.
- **The spreadsheet's autofilter spans rows `0` to `len - 1`**, one row short of the data (`Xlsx.FilterMissesLastRow`).
- **Every JSON object is followed by a comma line, the last one too** (`Json.EntriesCommas`, `Json.DocumentText`).

## Model

| member | source | states |
|---|---|---|
| Conv.LowerIdempotent | src/conv/mod.rs:131 | Lower-casing an already lower-cased type name changes nothing |
| Conv.CommonTypeInverse | src/conv/mod.rs:36-54 | The shared table gives a known kind `k` for a name if and only if the name is one of the spellings listed for `k` |
| Conv.CommonTypeKnown | src/conv/mod.rs:36-54 | Every spelling in the table is looked up to a kind other than `Unknown` that lists it |
| Conv.SpellingsOwn | src/conv/mod.rs:36-54 | A spelling listed for a kind is looked up to that kind |
| Conv.CommonTypeUnknown | src/conv/mod.rs:67 | A name is `Unknown` exactly when it is not in the table, and then it carries exactly that name |
| Conv.CommonTypeSpellings | src/conv/mod.rs:36-54 | `varchar`/`text`/`char`/`bpchar` give `Str`, `int2`/`smallint` `Int16`, `int4`/`int`/`mediumint` `Int32`, `json`/`jsonb` `Json`, and so on for every kind |
| Conv.CommonTypeUnsigned | src/conv/mod.rs:41-44 | The unsigned spellings give `UInt8`..`UInt64`, which have no renderer and are not `Unknown` |
| Conv.Implemented | src/conv/gfm.rs:66-86 | The kinds whose `convert` arm selects a renderer rather than reaching `todo!()`: every kind except the four unsigned ones and `Unknown`, alike in the three writers |
| Conv.Lower | src/conv/mod.rs:131 | `to_lowercase`, character by character (ASCII letters only) |
| Conv.CommonType | src/conv/mod.rs:34-69 | The table of mod.rs:36-54, spelling for spelling, with every other name `Unknown` of itself |
| Conv.Classify | src/conv/mod.rs:131-144 | A name whose lower-cased form is `"timestamp"` gives `DateTime` under Postgres and `DateTimeTz` under MySQL; every other name gives the table's kind for its lower-cased form |
| Conv.FieldOf | src/conv/mod.rs:129-147 | A field keeps the column's name unchanged, and its kind is the column type's classification |
| Conv.ClassifyUnknown | src/conv/mod.rs:131-144 | A column type is `Unknown` if and only if its lower-cased name is neither `"timestamp"` nor in the table; it carries that lower-cased name |
| Conv.TimestampDependsOnBackend | src/conv/mod.rs:132-142 | `"timestamp"`, in any case, is `DateTime` under Postgres and `DateTimeTz` under MySQL, so the backends differ on it |
| Conv.BackendsAgreeElsewhere | src/conv/mod.rs:133-143 | For every name that is not `"timestamp"` after lower-casing, the two backends classify alike |
| Conv.ClassifyIgnoresCase | src/conv/mod.rs:131-141 | Names equal after lower-casing classify alike, and a name classifies like its lower-cased form |
| Conv.Fields | src/conv/gfm.rs:114 | One field per column of the first row, in column order, each the column's classification |
| Conv.Schema | src/conv/json.rs:112 | The fields of a non-empty result: one per column of its first row, with that column's name and classified type |
| Conv.Decodes | src/conv/gfm.rs:67-84 | Which stored value decodes as the Rust type each kind's renderer requests, integers within that type's range; the four temporal kinds request an `Option` and so also accept NULL |
| Conv.Converts | src/conv/json.rs:75 | A stored value renders in the JSON and spreadsheet writers when it decodes and, for a decimal, has an f64 value |
| Conv.Fetch | src/conv/gfm.rs:23 | The typed `get` of column `c` succeeds exactly when `c` is in range and the stored value decodes as the kind's type; it yields that value, and otherwise the panic for column `c` |
| Conv.CollectAll | src/conv/gfm.rs:115 | Collecting succeeds exactly when every element's step does, keeps the order, and otherwise reports the first element whose step panics (used for the renderers of the columns and for the rendered rows) |
| Conv.ApplyAll | src/conv/gfm.rs:121-125 | A row run through the renderers succeeds exactly when each column's renderer does on its own column; cell `c` is renderer `c` applied to column `c`, else the first failing column's panic |
| Digits.NatText | src/conv/gfm.rs:67-70 | A natural number's text is non-empty, all decimal digits, and has no leading zero |
| Digits.IntText | src/conv/gfm.rs:67-70 | An integer's text starts with `-` exactly when the integer is negative |
| Digits.NatTextRoundTrip | src/conv/gfm.rs:67-70 | A natural number's decimal text reads back as that number |
| Digits.IntTextRoundTrip | src/conv/gfm.rs:67-70 | An integer's text reads back as that integer |
| Digits.IntTextInjective | src/conv/gfm.rs:67-70 | Distinct integers have distinct texts |
| Gfm.CellText | src/conv/gfm.rs:20-32 | The text of each kind's value: integer text, the float, string, boolean, decimal and JSON display texts, and for a null temporal the default value's text |
| Gfm.Render | src/conv/gfm.rs:20-32 | A Markdown cell renders exactly when the stored value decodes as the column's kind; otherwise it panics for that column |
| Gfm.Convert | src/conv/gfm.rs:66-86 | A renderer is selected exactly for the implemented kinds and renders as `Render`; `UInt*` and `Unknown` fail as unimplemented |
| Gfm.RenderInteger | src/conv/gfm.rs:67-70 | An integer cell is the integer's decimal text, which reads back as the stored integer |
| Gfm.RenderNullTemporal | src/conv/gfm.rs:80-83 | A null date, time or timestamp renders as its type's default value text (the local-zone default for a zoned timestamp), so a null naive value is never a blank cell |
| Gfm.RenderNullOther | src/conv/gfm.rs:23 | A stored NULL in any other implemented kind panics for that column |
| Gfm.ConvertAll | src/conv/gfm.rs:115 | Renderers are collected for all columns exactly when every kind is implemented, each renders as its kind's `Render`; otherwise an unimplemented kind of the result is reported |
| Gfm.RenderRows | src/conv/gfm.rs:117-126 | The body renders exactly when every row does, row `i` of the body being row `i` rendered; otherwise it reports the failure of the first row that does not render |
| Gfm.BodyRow | src/conv/gfm.rs:120-125 | The rendered cells of one row: cell `c` is column `c`'s renderer applied to column `c` |
| Gfm.Body | src/conv/gfm.rs:117-126 | The rendered body: one rendered row per result row, in result order |
| Gfm.Names | src/conv/gfm.rs:116 | The header has one entry per column, entry `i` being column `i`'s name |
| Gfm.ColumnWidthIsMax | src/conv/gfm.rs:127-134 | A column's width is at least the header's length and every cell's length in it, and equals one of them |
| Gfm.Widths | src/conv/gfm.rs:127-134 | There is one width per header column |
| Gfm.ColumnWidth | src/conv/gfm.rs:127-134 | The width of column `i`: its header's length, raised by each row's cell `i` where the row has one |
| Gfm.ColumnWidths | src/conv/gfm.rs:127-134 | The fold over the header lengths and the body rows computes exactly the per-column maxima |
| Gfm.CellsFit | src/conv/gfm.rs:127-134 | Every header name and every body cell fits within its column's width |
| Gfm.Repeat | src/conv/gfm.rs:139 | `"-".repeat(n)` has `n` characters, all dashes |
| Gfm.Separator | src/conv/gfm.rs:139 | The separator row has one cell per width |
| Gfm.SeparatorFills | src/conv/gfm.rs:139 | Separator cell `j` padded to its width is exactly `lens[j]` dashes |
| Gfm.Pad | src/conv/gfm.rs:146 | The padded cell starts with the cell, is as long as the larger of the cell and the width, and is spaces after the cell |
| Gfm.Padded | src/conv/gfm.rs:143-147 | Zipping cells with widths keeps as many cells as the shorter of the two |
| Gfm.Join | src/conv/gfm.rs:148 | Joining by bars: the parts in order with one bar between each neighbouring pair |
| Gfm.Line | src/conv/gfm.rs:142-148 | One output line: a bar, the cells each as `" " + padded cell + " "` joined by bars, and a closing bar |
| Gfm.Table | src/conv/gfm.rs:137-149 | The file: the header line, the separator line, then one line per body row, all padded to the column widths |
| Gfm.LineLayout | src/conv/gfm.rs:142-148 | For cells that fit their widths, a line has the table width; a bar sits at every column boundary, and between bars `j` and `j + 1` lies `" " + padded cell + " "` |
| Gfm.LineLaid | src/conv/gfm.rs:142-148 | A line of cells that fit their widths is laid out column by column as above |
| Gfm.TableLayout | src/conv/gfm.rs:137-149 | The table has `body + 2` lines: the header laid out first, the separator second, then body row `i` as line `i + 2` |
| Gfm.ResultTableLayout | src/conv/gfm.rs:113-149 | For a renderable result the file has `rows + 2` lines, all of the same width; line `r + 2` holds result row `r`'s rendered cells, each padded in its column's slot |
| Gfm.Insert | src/conv/gfm.rs:137-139 | `insert(i, x)` puts `x` at `i` and shifts the later rows by one, keeping the earlier ones |
| Gfm.WriteLines | src/conv/gfm.rs:141-149 | One line per row, in order, each the row's line for the widths |
| Gfm.RenderRowIsBodyRow | src/conv/gfm.rs:121-125 | With the collected renderers, a row renders exactly when each of its cells does, gives the body row, and otherwise fails with a decode panic |
| Gfm.RenderRowsIsBody | src/conv/gfm.rs:117-126 | With the collected renderers, the result renders exactly when every cell does, gives the body, and otherwise fails with a decode panic |
| Gfm.LinesAreTable | src/conv/gfm.rs:137-149 | The lines of the body with the header inserted at 0 and the separator at 1 are the table |
| Gfm.WriteTable | src/conv/gfm.rs:127-149 | Sizing, inserting and writing the lines gives the table of the header and body |
| Gfm.Write | src/conv/gfm.rs:113-152 | An empty result writes no file. Otherwise the file is written exactly when the result renders, and it is the table of the column names over the rendered body. An unimplemented kind always fails as unimplemented; with every kind implemented, a failure is a decode panic |
| Json.FromFloat | src/conv/json.rs:71-72 | A float becomes a number exactly when it is finite, and `null` otherwise |
| Json.Render | src/conv/json.rs:62-80 | A JSON value renders exactly when the stored value decodes and, for a decimal, converts to f64; a decoded decimal without f64 panics in `unwrap`; anything else is a decode panic |
| Json.RenderReadBack | src/conv/json.rs:63-80 | Integers, strings, booleans, naive temporals and stored JSON render to values that read back as the stored value |
| Json.RenderLosslessInjective | src/conv/json.rs:63-80 | Two cells of a lossless kind that render alike hold the same stored value |
| Json.RenderTemporal | src/conv/json.rs:76-79 | A temporal value is `null` exactly when it is null, and otherwise a string; a zoned timestamp is the string of its text |
| Json.RenderFloat | src/conv/json.rs:71-75 | A float or a convertible decimal becomes a number when finite and `null` otherwise |
| Json.RenderDecimalUnconvertible | src/conv/json.rs:75 | A decimal without an f64 conversion makes the renderer panic |
| Json.Convert | src/conv/json.rs:62-82 | A renderer is selected exactly for the implemented kinds and renders as `Render`; `UInt*` and `Unknown` fail as unimplemented |
| Json.ConvertAll | src/conv/json.rs:113 | Renderers are collected for all columns exactly when every kind is implemented; otherwise an unimplemented kind of the result is reported |
| Json.ObjectOf | src/conv/json.rs:120 | `JsonMap::from_iter`: the pairs inserted in order, a later duplicate key overwriting an earlier one |
| Json.ObjectOfKeys | src/conv/json.rs:120 | The object built from pairs has exactly the pairs' keys |
| Json.ObjectOfLastWins | src/conv/json.rs:120 | A pair whose key does not occur later gives the object's value for that key |
| Json.ObjectOfDistinct | src/conv/json.rs:120 | Pairs with distinct keys give an object with one member per pair, each holding its pair's value |
| Json.Pairs | src/conv/json.rs:115-119 | Pair `c` is column `c`'s name with column `c`'s value |
| Json.RowValues | src/conv/json.rs:115-119 | A row has one rendered value per column |
| Json.RowObject | src/conv/json.rs:115-120 | The object of one row: the map built by inserting each column's name and rendered value, in column order |
| Json.RowObjectMembers | src/conv/json.rs:115-120 | A row's object has exactly the column names as keys; a column whose name does not recur later holds its rendered value |
| Json.RowObjectSize | src/conv/json.rs:115-120 | With distinct column names, a row's object has one member per column |
| Json.DuplicateNameShadows | src/conv/json.rs:115-120 | Two columns of the same name leave the object with fewer members than columns |
| Json.Entries | src/conv/json.rs:114-123 | The entries alternate object and comma line, object `i` at position `2i` and a comma after each |
| Json.Objects | src/conv/json.rs:114-120 | One object per row, in source order |
| Json.Leading | src/conv/json.rs:114-123 | The rows before the first row that does not render, which all render |
| Json.LeadingAt | src/conv/json.rs:114-123 | When row `n` is the first that does not render, `n` rows lead |
| Json.EntriesCommas | src/conv/json.rs:114-123 | There are as many comma lines as objects: the last object is followed by one too |
| Json.Document | src/conv/json.rs:109-125 | The whole file: `[`, each object followed by a comma line, `]` |
| Json.Written | src/conv/json.rs:121 | The text of the pieces, each object written as the serializer makes it |
| Json.DocumentShape | src/conv/json.rs:110-125 | The document opens with `[`, closes with `]`, has `2n + 2` pieces and `n` comma lines, and with a row the piece before `]` is a comma |
| Json.DocumentText | src/conv/json.rs:109-125 | Whatever an object serializes to, the text starts with `"[\n"` and ends with `"]\n"`; an empty result is exactly `"[\n]\n"`, and a non-empty one ends in `",\n]\n"` |
| Json.ApplyAllIsRowValues | src/conv/json.rs:115-119 | With the collected renderers a row renders exactly when each cell does, giving the row's values, and otherwise fails with a decode or f64 panic |
| Json.WriteObjects | src/conv/json.rs:114-123 | The row loop writes every row's object and comma exactly when every row renders; otherwise it stops at the first failing row, with the entries of the rows before it |
| Json.EntriesNoClose | src/conv/json.rs:125 | The opening bracket and the entries hold no closing bracket |
| Json.Write | src/conv/json.rs:109-126 | An empty result writes `[` `]`. Otherwise it writes the whole document exactly when the result renders. An unimplemented kind leaves only `[`. A cell panic leaves `[` and the entries of the rows before the first failing row, without `]` |
| Xlsx.Palette | src/conv/xlsx.rs:144-151 | Only `Bold` is bold and has no number format; `Int` is `#,##0`, `Eur` `#,##0.00`, `Date` `dd/mm/yyyy`, `Time` `hh:mm`, `Stamp` `dd/mm/yyyy hh:mm:ss` |
| Xlsx.PaletteInjective | src/conv/xlsx.rs:144-151 | Distinct format tags are distinct formats |
| Xlsx.Render | src/conv/xlsx.rs:83-117 | A cell renders exactly when the stored value decodes and, for a decimal, converts to f64; a decoded decimal without f64 panics in `unwrap`; anything else is a decode panic; an exact integer cell lies in the i32 range |
| Xlsx.FormatOf | src/conv/xlsx.rs:84-115 | The tag of each kind's cells: `Int`, `Eur`, `Date`, `Time` or `Stamp`, and none for strings, booleans and JSON |
| Xlsx.RenderFormat | src/conv/xlsx.rs:84-115 | Every written cell carries its kind's tag: `Int` for integers, `Eur` for floats and decimals, `Date`, `Time`, `Stamp` for temporals, none for strings, booleans and JSON |
| Xlsx.RenderSkips | src/conv/xlsx.rs:34-41 | A cell is left unwritten exactly for a null date, time or timestamp |
| Xlsx.RenderLocalTimestamp | src/conv/xlsx.rs:106-111 | A zoned timestamp is written as its naive local reading with the `Stamp` format |
| Xlsx.Convert | src/conv/xlsx.rs:83-117 | A renderer is selected exactly for the implemented kinds and renders as `Render`; `UInt*` and `Unknown` fail as unimplemented |
| Xlsx.Worksheet.constructor | src/conv/xlsx.rs:152-153 | A new worksheet has no cells, no freeze pane and no filter |
| Xlsx.Worksheet.Write | src/conv/xlsx.rs:30 | `write` sets one cell without a format and changes nothing else |
| Xlsx.Worksheet.WriteWithFormat | src/conv/xlsx.rs:37 | `write_with_format` sets one cell with its format and changes nothing else |
| Xlsx.Worksheet.SetFreezePanes | src/conv/xlsx.rs:154 | Sets the freeze pane and changes nothing else |
| Xlsx.Worksheet.Autofilter | src/conv/xlsx.rs:171 | Sets the autofilter range and changes nothing else |
| Xlsx.Put | src/conv/xlsx.rs:30-44 | A rendered cell is written at its position, with its format if it has one |
| Xlsx.Expected | src/conv/xlsx.rs:161-169 | The expected cell at each position: a bold name in row 0, row `r`'s rendered cell in sheet row `r + 1`, nothing elsewhere |
| Xlsx.Grid | src/conv/xlsx.rs:161-169 | The sheet of a written result: every position that expects a cell, holding it |
| Xlsx.GridCells | src/conv/xlsx.rs:161-169 | A position is in the written grid exactly when a cell is expected there, holding that cell |
| Xlsx.GridHeader | src/conv/xlsx.rs:161-163 | Cell `(0, c)` holds column `c`'s name in bold |
| Xlsx.GridData | src/conv/xlsx.rs:166-169 | Cell `(r + 1, c)` holds row `r`'s rendered column `c` with its kind's format, and is absent exactly for a null temporal value |
| Xlsx.GridBounds | src/conv/xlsx.rs:166-169 | Nothing is written right of the last column or below the last data row |
| Xlsx.FilterRange | src/conv/xlsx.rs:171 | The autofilter's range: rows `0` to `len - 1`, columns `0` to `ncols - 1` |
| Xlsx.FilterMissesLastRow | src/conv/xlsx.rs:171 | The autofilter covers sheet rows `0` to `len - 1`, so the last data row, in sheet row `len`, lies outside it while every written cell there is in the grid |
| Xlsx.HeaderStep | src/conv/xlsx.rs:161-163 | Writing column `c`'s bold name extends a header of the first `c` columns to `c + 1` columns, every cell as expected |
| Xlsx.WriteHeader | src/conv/xlsx.rs:157-165 | Writes the bold names and collects the renderers; it succeeds exactly when every kind is implemented, with the whole header written; otherwise it stops at the first unimplemented column `c` with `Unimplemented` of its kind, the header written up to and including `c` and no further |
| Xlsx.WriteRow | src/conv/xlsx.rs:167-169 | Writes row `r` to sheet row `r + 1`; succeeds exactly when every cell of the row renders, and every cell written is the expected one |
| Xlsx.WriteRows | src/conv/xlsx.rs:166-170 | Writes the rows in order; succeeds exactly when every cell renders, leaving the header and every data cell, and otherwise stops at a decode or f64 panic |
| Xlsx.GridIs | src/conv/xlsx.rs:166-170 | A sheet whose every cell is the expected one, and that has every expected cell, is the grid |
| Xlsx.Write | src/conv/xlsx.rs:144-176 | The freeze pane is `(1, 0)`, and an empty result saves nothing. Otherwise the workbook is saved exactly when the result renders and has a column; it is then the grid with the off-by-one filter. On a failure nothing is saved, and every written cell is an expected one |

## Left out

- `src/main.rs` is not part of this model: argument parsing, the connection URL, the query and the choice of writer are I/O and glue.
- The database driver: a row is a sequence of tagged values, and `Fetch` fails exactly when the stored value is missing or has another tag. A NULL fails for every kind except the temporal ones, which are read as `Option`.
- Floating point: floats and decimals are opaque (their display text, whether they are finite, and whether a decimal has an `f64` value), so no arithmetic on them is modelled.
- Xlsx.Render: an `i64` cell is `RoundedInt` of the exact integer; the rounding of the `as f64` cast is not modelled, since floating point is left out.
- The display texts of dates, times and timestamps (chrono's `Display`) are opaque strings. The default values are the texts of the Unix epoch. The default local timestamp's text depends on the machine's time zone and is the parameter `localEpoch`.
- serde_json's serialized bytes and the key order of its maps: an object is a map, and the text of the file takes the serializer as a parameter.
- rust_xlsxwriter internals are left out: `autofit`, the saved file's bytes, and `Format` objects beyond a bold flag and a number-format string.
- Errors that rust_xlsxwriter reports for rows or columns beyond Excel's limits are left out, and so is the header write's `unwrap` panic on them.
- The `u32`/`u16` casts of the row and column counts are not modelled for results beyond those widths.
- A result without columns hits `columns.len() - 1` on a `u16`. In a debug build that panics. In a release build it wraps and the autofilter call fails. Both end in `AutofilterRange`, with nothing saved.
- Gfm.ColumnWidths: widths are counted in characters, while the source measures `len()` in bytes and `format!` pads by characters, so the two agree only for ASCII text.
- Conv.Lower: folds ASCII letters only, while `to_lowercase` also folds non-ASCII letters; no table spelling or `"timestamp"` is affected, so only the name an `Unknown` kind carries can differ.
- File creation and write errors are left out; each file is the sequence of what is written to it.
- A panic is a `Failure` value rather than an unwinding process. The Markdown writer builds its file only after everything has rendered, so a failure leaves no file. The JSON writer has already written a prefix, which is stated.
- The unused alignment enumeration `MF` of the Markdown writer and the `Converter` trait's type bounds have no behaviour to model.
