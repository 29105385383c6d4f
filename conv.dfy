/**
 * The canonical type taxonomy of the conversion engine (src/conv/mod.rs):
 * the `FieldKind` enumeration, the shared table of backend type spellings,
 * the per-backend classifiers that turn a column's metadata into a `Field`,
 * and the row model the three writers read from.
 *
 * The database driver is not modelled: a row is a sequence of tagged scalar
 * values, and `Fetch` stands for the driver's typed `get`, which panics when
 * the index is out of range or the stored value does not decode as the
 * requested type.
 */
module Conv {

  datatype Option<+T> = None | Some(value: T)

  /** The outcome of a step that may abort the export. */
  datatype Result<+T> = Ok(value: T) | Fail(failure: Failure) {
    predicate IsFailure() { Fail? }

    function PropagateFailure<U>(): Result<U>
      requires Fail?
    {
      Fail(failure)
    }

    function Extract(): T
      requires Ok?
    {
      value
    }
  }

  /** Every way the conversion engine aborts an export. */
  datatype Failure =
    | Unimplemented(kind: FieldKind)  // a `todo!()` when a renderer is selected
    | DecodePanic(column: nat)        // the driver's typed `get` panics
    | DecimalNotF64(column: nat)      // `to_f64().unwrap()` on a decimal with no f64 value
    | AutofilterRange                 // `columns.len() - 1` on a result without columns

  /** Canonical, backend-independent column type. */
  datatype FieldKind =
    | Int8 | Int16 | Int32 | Int64
    | UInt8 | UInt16 | UInt32 | UInt64
    | Float32 | Float64
    | Str | Bool | Decimal
    | Date | Time | DateTime | DateTimeTz
    | Json
    | Unknown(typeName: string)

  /** The two supported database backends. */
  datatype Backend = Postgres | MySql

  /** Column metadata as the driver reports it. */
  datatype Column = Column(name: string, typeName: string)

  /** A classified column: its name and its canonical kind. */
  datatype Field = Field(name: string, kind: FieldKind)

  /** Kinds that have a renderer in every output format. */
  predicate Implemented(k: FieldKind) {
    !(k.UInt8? || k.UInt16? || k.UInt32? || k.UInt64? || k.Unknown?)
  }

  // ---------------------------------------------------------------------------
  // Classification
  // ---------------------------------------------------------------------------

  /** ASCII lower-casing of one character. */
  function LowerChar(ch: char): char {
    if 'A' <= ch <= 'Z' then (ch as int + 32) as char else ch
  }

  /** Lower-casing of a type name, character by character. */
  function Lower(s: string): string {
    seq(|s|, i requires 0 <= i < |s| => LowerChar(s[i]))
  }

  lemma LowerIdempotent(s: string)
    ensures Lower(Lower(s)) == Lower(s)
  {
    assert forall i :: 0 <= i < |s| ==> Lower(Lower(s))[i] == Lower(s)[i];
  }

  /** The lookup table shared by both backends, for an already lower-cased name. */
  function CommonType(name: string): FieldKind {
    match name
    case "string" | "varchar" | "tinytext" | "text" | "mediumtext" | "longtext" | "char" | "bpchar" => Str
    case "tinyint" => Int8
    case "int2" | "smallint" => Int16
    case "int4" | "int" | "mediumint" => Int32
    case "int8" | "bigint" => Int64
    case "tinyint unsigned" => UInt8
    case "smallint unsigned" => UInt16
    case "int unsigned" | "mediumint unsigned" => UInt32
    case "bigint unsigned" => UInt64
    case "float4" | "float" => Float32
    case "float8" | "double" => Float64
    case "decimal" | "numeric" => Decimal
    case "json" | "jsonb" => Json
    case "bool" | "boolean" => Bool
    case "date" => Date
    case "time" => Time
    case "datetime" => DateTime
    case "timestamptz" => DateTimeTz
    case other => Unknown(other)
  }

  /** The table read backwards: the spellings listed for each kind. */
  function SpellingsOf(k: FieldKind): set<string> {
    match k
    case Str => {"string", "varchar", "tinytext", "text", "mediumtext", "longtext", "char", "bpchar"}
    case Int8 => {"tinyint"}
    case Int16 => {"int2", "smallint"}
    case Int32 => {"int4", "int", "mediumint"}
    case Int64 => {"int8", "bigint"}
    case UInt8 => {"tinyint unsigned"}
    case UInt16 => {"smallint unsigned"}
    case UInt32 => {"int unsigned", "mediumint unsigned"}
    case UInt64 => {"bigint unsigned"}
    case Float32 => {"float4", "float"}
    case Float64 => {"float8", "double"}
    case Decimal => {"decimal", "numeric"}
    case Json => {"json", "jsonb"}
    case Bool => {"bool", "boolean"}
    case Date => {"date"}
    case Time => {"time"}
    case DateTime => {"datetime"}
    case DateTimeTz => {"timestamptz"}
    case Unknown(_) => {}
  }

  /** Every spelling the table knows. */
  const KnownNames: set<string> := {
    "string", "varchar", "tinytext", "text", "mediumtext", "longtext", "char", "bpchar",
    "tinyint", "int2", "smallint", "int4", "int", "mediumint", "int8", "bigint",
    "tinyint unsigned", "smallint unsigned", "int unsigned", "mediumint unsigned", "bigint unsigned",
    "float4", "float", "float8", "double", "decimal", "numeric",
    "json", "jsonb", "bool", "boolean", "date", "time", "datetime", "timestamptz"
  }

  /** The lookup gives a known kind `k` exactly for the spellings listed for `k`. */
  lemma CommonTypeInverse(name: string, k: FieldKind)
    requires !k.Unknown?
    ensures CommonType(name) == k <==> name in SpellingsOf(k)
  {
    CommonTypeUnknown(name);
    if name in KnownNames {
      CommonTypeKnown(name);
    }
    if name in SpellingsOf(k) {
      SpellingsOwn(name, k);
    }
  }

  /** A known spelling is looked up to the kind it is listed for. */
  lemma CommonTypeKnown(name: string)
    requires name in KnownNames
    ensures !CommonType(name).Unknown? && name in SpellingsOf(CommonType(name))
  {
  }

  /** A spelling listed for `k` is looked up to `k`. */
  lemma SpellingsOwn(name: string, k: FieldKind)
    requires name in SpellingsOf(k)
    ensures CommonType(name) == k
  {
    match k
    case Str =>
    case Int8 =>
    case Int16 =>
    case Int32 =>
    case Int64 =>
    case UInt8 =>
    case UInt16 =>
    case UInt32 =>
    case UInt64 =>
    case Float32 =>
    case Float64 =>
    case Decimal =>
    case Json =>
    case Bool =>
    case Date =>
    case Time =>
    case DateTime =>
    case DateTimeTz =>
    case Unknown(_) =>
  }

  /** A name outside the table, and only such a name, is `Unknown` carrying exactly that name. */
  lemma CommonTypeUnknown(name: string)
    ensures CommonType(name).Unknown? <==> name !in KnownNames
    ensures CommonType(name).Unknown? ==> CommonType(name) == Unknown(name)
  {
  }

  /** Classification of a column type name under a backend. */
  function Classify(db: Backend, typeName: string): (k: FieldKind)
    ensures Lower(typeName) == "timestamp" ==> k == (if db == Postgres then DateTime else DateTimeTz)
    ensures Lower(typeName) != "timestamp" ==> k == CommonType(Lower(typeName))
  {
    var name := Lower(typeName);
    if name == "timestamp" then
      match db
      case Postgres => DateTime
      case MySql => DateTimeTz
    else
      CommonType(name)
  }

  /** `Field::from` for a Postgres or a MySQL column: the name is copied, the kind classified. */
  function FieldOf(db: Backend, col: Column): (f: Field)
    ensures f.name == col.name
    ensures f.kind == Classify(db, col.typeName)
  {
    Field(col.name, Classify(db, col.typeName))
  }

  /** The fields of a whole result, one per column, in column order. */
  function Fields(db: Backend, cols: seq<Column>): (fs: seq<Field>)
    ensures |fs| == |cols|
    ensures forall i :: 0 <= i < |cols| ==> fs[i] == FieldOf(db, cols[i])
  {
    seq(|cols|, i requires 0 <= i < |cols| => FieldOf(db, cols[i]))
  }

  /** Each listed spelling is looked up to its kind. */
  lemma CommonTypeSpellings()
    ensures CommonType("varchar") == Str && CommonType("text") == Str
    ensures CommonType("char") == Str && CommonType("bpchar") == Str
    ensures CommonType("tinyint") == Int8
    ensures CommonType("int2") == Int16 && CommonType("smallint") == Int16
    ensures CommonType("int4") == Int32 && CommonType("int") == Int32 && CommonType("mediumint") == Int32
    ensures CommonType("int8") == Int64 && CommonType("bigint") == Int64
    ensures CommonType("float4") == Float32 && CommonType("float8") == Float64
    ensures CommonType("numeric") == Decimal && CommonType("boolean") == Bool
    ensures CommonType("json") == Json && CommonType("jsonb") == Json
    ensures CommonType("date") == Date && CommonType("time") == Time
    ensures CommonType("datetime") == DateTime && CommonType("timestamptz") == DateTimeTz
  {
    CommonTypeInverse("varchar", Str);
    CommonTypeInverse("text", Str);
    CommonTypeInverse("char", Str);
    CommonTypeInverse("bpchar", Str);
    CommonTypeInverse("tinyint", Int8);
    CommonTypeInverse("int2", Int16);
    CommonTypeInverse("smallint", Int16);
    CommonTypeInverse("int4", Int32);
    CommonTypeInverse("int", Int32);
    CommonTypeInverse("mediumint", Int32);
    CommonTypeInverse("int8", Int64);
    CommonTypeInverse("bigint", Int64);
    CommonTypeInverse("float4", Float32);
    CommonTypeInverse("float8", Float64);
    CommonTypeInverse("numeric", Decimal);
    CommonTypeInverse("boolean", Bool);
    CommonTypeInverse("json", Json);
    CommonTypeInverse("jsonb", Json);
    CommonTypeInverse("date", Date);
    CommonTypeInverse("time", Time);
    CommonTypeInverse("datetime", DateTime);
    CommonTypeInverse("timestamptz", DateTimeTz);
  }

  /** Unsigned spellings give the unsigned kinds, which have no renderer but are not `Unknown`. */
  lemma CommonTypeUnsigned()
    ensures CommonType("tinyint unsigned") == UInt8
    ensures CommonType("smallint unsigned") == UInt16
    ensures CommonType("int unsigned") == UInt32 && CommonType("mediumint unsigned") == UInt32
    ensures CommonType("bigint unsigned") == UInt64
    ensures forall k :: k in {UInt8, UInt16, UInt32, UInt64} ==> !Implemented(k) && !k.Unknown?
  {
    CommonTypeInverse("tinyint unsigned", UInt8);
    CommonTypeInverse("smallint unsigned", UInt16);
    CommonTypeInverse("int unsigned", UInt32);
    CommonTypeInverse("mediumint unsigned", UInt32);
    CommonTypeInverse("bigint unsigned", UInt64);
  }

  /** A name is `Unknown` exactly when its lower-cased form is neither "timestamp" nor in the table; it carries that form. */
  lemma ClassifyUnknown(db: Backend, typeName: string)
    ensures Classify(db, typeName).Unknown? <==> Lower(typeName) != "timestamp" && Lower(typeName) !in KnownNames
    ensures Classify(db, typeName).Unknown? ==> Classify(db, typeName) == Unknown(Lower(typeName))
  {
    if Lower(typeName) != "timestamp" {
      CommonTypeUnknown(Lower(typeName));
    }
  }

  /** "timestamp" is naive under Postgres and zoned under MySQL, whatever its case. */
  lemma TimestampDependsOnBackend(typeName: string)
    requires Lower(typeName) == "timestamp"
    ensures Classify(Postgres, typeName) == DateTime
    ensures Classify(MySql, typeName) == DateTimeTz
    ensures Classify(Postgres, typeName) != Classify(MySql, typeName)
  {
  }

  /** The two backends agree on every name other than "timestamp". */
  lemma BackendsAgreeElsewhere(typeName: string)
    requires Lower(typeName) != "timestamp"
    ensures Classify(Postgres, typeName) == Classify(MySql, typeName)
  {
  }

  /** Classification only sees the lower-cased name. */
  lemma ClassifyIgnoresCase(db: Backend, a: string, b: string)
    requires Lower(a) == Lower(b)
    ensures Classify(db, a) == Classify(db, b)
    ensures Classify(db, Lower(a)) == Classify(db, a)
  {
    LowerIdempotent(a);
  }

  // ---------------------------------------------------------------------------
  // Rows
  // ---------------------------------------------------------------------------

  /** A floating-point value, known by its `Display` text and whether it is finite. */
  datatype Fp = Fp(text: string, finite: bool)

  /** A decimal, known by its `Display` text and its conversion to f64, which may be absent. */
  datatype Dec = Dec(text: string, asF64: Option<Fp>)

  /** A date, time or naive timestamp, known by its `Display` text. */
  datatype Temporal = Temporal(text: string)

  /** A timestamp in the local zone: its `Display` text and its naive local reading. */
  datatype Zoned = Zoned(text: string, naiveLocal: Temporal)

  /** A JSON document stored in a column, known by its compact serialization. */
  datatype JsonDoc = JsonDoc(text: string)

  /** One stored value, tagged with the Rust type the driver decodes it as. */
  datatype Raw =
    | Null
    | I8(i: int) | I16(i: int) | I32(i: int) | I64(i: int)
    | F32(f: Fp) | F64(f: Fp)
    | Text(s: string)
    | Boolean(b: bool)
    | Numeric(d: Dec)
    | NaiveDate(t: Temporal)
    | NaiveTime(t: Temporal)
    | NaiveDateTime(t: Temporal)
    | LocalDateTime(z: Zoned)
    | JsonValue(doc: JsonDoc)

  /** A result row: the column metadata the driver attaches and the stored values. */
  datatype Row = Row(columns: seq<Column>, values: seq<Raw>)

  /**
   * Whether the driver decodes `v` as the Rust type the renderers request for
   * `k`; temporal kinds are requested as `Option`. An integer tag's payload
   * lies in its Rust type's range; one outside it is no value the driver holds.
   */
  predicate Decodes(k: FieldKind, v: Raw) {
    match k
    case Int8 => v.I8? && -0x80 <= v.i < 0x80
    case Int16 => v.I16? && -0x8000 <= v.i < 0x8000
    case Int32 => v.I32? && -0x8000_0000 <= v.i < 0x8000_0000
    case Int64 => v.I64? && -0x8000_0000_0000_0000 <= v.i < 0x8000_0000_0000_0000
    case Float32 => v.F32?
    case Float64 => v.F64?
    case Str => v.Text?
    case Bool => v.Boolean?
    case Decimal => v.Numeric?
    case Date => v.Null? || v.NaiveDate?
    case Time => v.Null? || v.NaiveTime?
    case DateTime => v.Null? || v.NaiveDateTime?
    case DateTimeTz => v.Null? || v.LocalDateTime?
    case Json => v.JsonValue?
    case _ => false
  }

  /**
   * Whether a stored value renders as kind `k` in the JSON and spreadsheet
   * writers: it decodes, and a decimal also converts to f64.
   */
  predicate Converts(k: FieldKind, v: Raw) {
    Decodes(k, v) && (k.Decimal? ==> v.d.asF64.Some?)
  }

  /** The driver's typed `get` of column `c`: the value, or the panic it raises. */
  function Fetch(k: FieldKind, row: Row, c: nat): (r: Result<Raw>)
    ensures r.Ok? <==> c < |row.values| && Decodes(k, row.values[c])
    ensures r.Ok? ==> r.value == row.values[c]
    ensures r.Fail? ==> r.failure == DecodePanic(c)
  {
    if c < |row.values| && Decodes(k, row.values[c]) then Ok(row.values[c]) else Fail(DecodePanic(c))
  }

  /** The column schema of a result: the metadata of its first row, classified. */
  function Schema(db: Backend, result: seq<Row>): (fs: seq<Field>)
    requires |result| > 0
    ensures |fs| == |result[0].columns|
    ensures forall i :: 0 <= i < |fs| ==> fs[i].name == result[0].columns[i].name
    ensures forall i :: 0 <= i < |fs| ==> fs[i].kind == Classify(db, result[0].columns[i].typeName)
  {
    Fields(db, result[0].columns)
  }

  // ---------------------------------------------------------------------------
  // Renderer plumbing shared by the writers
  // ---------------------------------------------------------------------------

  /**
   * `xs.iter().map(select).collect()`: `select` applied to every element, in
   * order; the first element whose step panics aborts the collection. The
   * writers collect their renderers, one per column, this way, and the text
   * table its rendered rows.
   */
  function CollectAll<A, T>(xs: seq<A>, select: A -> Result<T>): (r: Result<seq<T>>)
    ensures r.Ok? <==> forall i :: 0 <= i < |xs| ==> select(xs[i]).Ok?
    ensures r.Ok? ==> |r.value| == |xs|
    ensures r.Ok? ==> forall i :: 0 <= i < |xs| ==> r.value[i] == select(xs[i]).value
    ensures r.Fail? ==>
      exists i :: 0 <= i < |xs| && select(xs[i]) == Fail(r.failure)
        && forall j :: 0 <= j < i ==> select(xs[j]).Ok?
    decreases |xs|
  {
    if xs == [] then Ok([])
    else
      var init :- CollectAll(xs[..|xs| - 1], select);
      var last :- select(xs[|xs| - 1]);
      Ok(init + [last])
  }

  /**
   * One row run through every column's renderer, renderer `c` applied to
   * column `c`; the first cell that panics aborts the row.
   */
  function ApplyAll<T>(convs: seq<(nat, Row) -> Result<T>>, row: Row): (r: Result<seq<T>>)
    ensures r.Ok? <==> forall c :: 0 <= c < |convs| ==> convs[c](c, row).Ok?
    ensures r.Ok? ==> |r.value| == |convs|
    ensures r.Ok? ==> forall c :: 0 <= c < |convs| ==> r.value[c] == convs[c](c, row).value
    ensures r.Fail? ==>
      exists c :: 0 <= c < |convs| && convs[c](c, row) == Fail(r.failure)
        && forall d :: 0 <= d < c ==> convs[d](d, row).Ok?
    decreases |convs|
  {
    if convs == [] then Ok([])
    else
      var init :- ApplyAll(convs[..|convs| - 1], row);
      var last :- convs[|convs| - 1](|convs| - 1, row);
      Ok(init + [last])
  }
}
