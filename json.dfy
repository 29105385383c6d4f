/**
 * The JSON writer (src/conv/json.rs).
 *
 * Every row becomes a JSON object from column name to the column's rendered
 * value. The file is an opening bracket, each object followed by a comma
 * (the last one too), and a closing bracket, each on a line of its own. The
 * file is modelled as the sequence of pieces written to it, objects kept as
 * values; their serialized bytes are a parameter wherever text is meant.
 */
module Json {
  import opened Conv

  // ---------------------------------------------------------------------------
  // Cell renderer
  // ---------------------------------------------------------------------------

  /** The `serde_json::Value`s the renderers produce. */
  datatype Value =
    | JNull
    | JBool(b: bool)
    | JInt(i: int)
    | JNumber(f: Fp)
    | JString(s: string)
    | JDoc(doc: JsonDoc)

  /** `Value::from` a float: a number when it is finite, `null` otherwise. */
  function FromFloat(f: Fp): (v: Value)
    ensures v == JNull || v == JNumber(f)
    ensures v.JNumber? <==> f.finite
  {
    if f.finite then JNumber(f) else JNull
  }

  /** The renderer bound to column `c` of a kind that has one. */
  function Render(k: FieldKind, c: nat, row: Row): (r: Result<Value>)
    requires Implemented(k)
    ensures r.Ok? <==> c < |row.values| && Converts(k, row.values[c])
    ensures r.Fail? && c < |row.values| && Decodes(k, row.values[c]) ==> r.failure == DecimalNotF64(c)
    ensures r.Fail? && !(c < |row.values| && Decodes(k, row.values[c])) ==> r.failure == DecodePanic(c)
  {
    var v :- Fetch(k, row, c);
    match k
    case Int8 | Int16 | Int32 | Int64 => Ok(JInt(v.i))
    case Float32 | Float64 => Ok(FromFloat(v.f))
    case Str => Ok(JString(v.s))
    case Bool => Ok(JBool(v.b))
    case Decimal => if v.d.asF64.None? then Fail(DecimalNotF64(c)) else Ok(FromFloat(v.d.asF64.value))
    case Date | Time | DateTime => Ok(if v.Null? then JNull else JString(v.t.text))
    case DateTimeTz => Ok(if v.Null? then JNull else JString(v.z.text))
    case Json => Ok(JDoc(v.doc))
  }

  /** The kinds whose rendering loses nothing: the stored value can be read back from the JSON value. */
  predicate Lossless(k: FieldKind) {
    k in {Int8, Int16, Int32, Int64, Str, Bool, Date, Time, DateTime, Json}
  }

  /** Reads a JSON value back as the stored value of kind `k` it was rendered from. */
  function ReadBack(k: FieldKind, v: Value): Option<Raw> {
    match (k, v)
    case (Int8, JInt(i)) => Some(I8(i))
    case (Int16, JInt(i)) => Some(I16(i))
    case (Int32, JInt(i)) => Some(I32(i))
    case (Int64, JInt(i)) => Some(I64(i))
    case (Str, JString(s)) => Some(Raw.Text(s))
    case (Bool, JBool(b)) => Some(Boolean(b))
    case (Date, JNull) => Some(Null)
    case (Date, JString(s)) => Some(NaiveDate(Temporal(s)))
    case (Time, JNull) => Some(Null)
    case (Time, JString(s)) => Some(NaiveTime(Temporal(s)))
    case (DateTime, JNull) => Some(Null)
    case (DateTime, JString(s)) => Some(NaiveDateTime(Temporal(s)))
    case (Json, JDoc(doc)) => Some(JsonValue(doc))
    case _ => None
  }

  /**
   * Integers become numbers, strings strings, booleans booleans, a stored
   * JSON document passes through, and a naive temporal value becomes `null`
   * or the string of its text: each reads back as the stored value.
   */
  lemma RenderReadBack(k: FieldKind, c: nat, row: Row)
    requires Lossless(k)
    requires c < |row.values| && Decodes(k, row.values[c])
    ensures Render(k, c, row).Ok?
    ensures ReadBack(k, Render(k, c, row).value) == Some(row.values[c])
  {
  }

  /** Two rows whose cells of a lossless kind render alike hold the same stored value there. */
  lemma RenderLosslessInjective(k: FieldKind, c: nat, row1: Row, row2: Row)
    requires Lossless(k)
    requires Render(k, c, row1).Ok? && Render(k, c, row1) == Render(k, c, row2)
    ensures row1.values[c] == row2.values[c]
  {
    RenderReadBack(k, c, row1);
    RenderReadBack(k, c, row2);
  }

  /**
   * A null temporal value becomes `null` and a present one the string of its
   * text, so unlike the text table a null date is told apart from any stored date.
   */
  lemma RenderTemporal(k: FieldKind, c: nat, row: Row)
    requires k in {Date, Time, DateTime, DateTimeTz}
    requires c < |row.values| && Decodes(k, row.values[c])
    ensures Render(k, c, row).Ok?
    ensures row.values[c].Null? <==> Render(k, c, row).value == JNull
    ensures !row.values[c].Null? ==> Render(k, c, row).value.JString?
    ensures k == DateTimeTz && !row.values[c].Null? ==> Render(k, c, row).value == JString(row.values[c].z.text)
  {
  }

  /** Every non-finite float or decimal becomes `null`; every finite one a number. */
  lemma RenderFloat(k: FieldKind, c: nat, row: Row)
    requires k in {Float32, Float64, Decimal}
    requires Render(k, c, row).Ok?
    ensures var f := if k.Decimal? then row.values[c].d.asF64.value else row.values[c].f;
      Render(k, c, row).value == (if f.finite then JNumber(f) else JNull)
  {
  }

  /** A decimal without an f64 conversion makes the `unwrap` panic. */
  lemma RenderDecimalUnconvertible(c: nat, row: Row)
    requires c < |row.values| && row.values[c].Numeric? && row.values[c].d.asF64.None?
    ensures Render(Decimal, c, row) == Fail(DecimalNotF64(c))
  {
  }

  /** A renderer as the source keeps it: a function of the column index and the row. */
  type Renderer = (nat, Row) -> Result<Value>

  /** Renderer selection: a `todo!()` for the unsigned kinds and `Unknown`. */
  function Convert(f: Field): (r: Result<Renderer>)
    ensures r.Ok? <==> Implemented(f.kind)
    ensures r.Fail? ==> r.failure == Unimplemented(f.kind)
    ensures r.Ok? ==> forall c, row :: r.value(c, row) == Render(f.kind, c, row)
  {
    if Implemented(f.kind) then Ok((c: nat, row: Row) => Render(f.kind, c, row))
    else Fail(Unimplemented(f.kind))
  }

  /** The renderers of all columns, collected in column order; the first kind without one panics. */
  function ConvertAll(fields: seq<Field>): (r: Result<seq<Renderer>>)
    ensures r.Ok? <==> forall i :: 0 <= i < |fields| ==> Implemented(fields[i].kind)
    ensures r.Ok? ==> |r.value| == |fields|
    ensures r.Ok? ==> forall i, c, row :: 0 <= i < |fields| ==> r.value[i](c, row) == Render(fields[i].kind, c, row)
    ensures r.Fail? ==>
      exists i :: 0 <= i < |fields| && !Implemented(fields[i].kind) && r.failure == Unimplemented(fields[i].kind)
  {
    CollectAll(fields, Convert)
  }

  // ---------------------------------------------------------------------------
  // Row objects
  // ---------------------------------------------------------------------------

  /** The keys of a sequence of pairs. */
  function Keys(pairs: seq<(string, Value)>): set<string> {
    set i | 0 <= i < |pairs| :: pairs[i].0
  }

  /**
   * `JsonMap::from_iter(pairs)`: the pairs inserted one after the other, so
   * of two pairs with the same key the later one stays.
   */
  function ObjectOf(pairs: seq<(string, Value)>): (m: map<string, Value>)
    decreases |pairs|
  {
    if pairs == [] then map[]
    else ObjectOf(pairs[..|pairs| - 1])[pairs[|pairs| - 1].0 := pairs[|pairs| - 1].1]
  }

  /** The object's keys are exactly the keys of the pairs. */
  lemma {:induction false} ObjectOfKeys(pairs: seq<(string, Value)>)
    ensures ObjectOf(pairs).Keys == Keys(pairs)
    decreases |pairs|
  {
    if pairs != [] {
      var init := pairs[..|pairs| - 1];
      ObjectOfKeys(init);
      assert Keys(pairs) == Keys(init) + {pairs[|pairs| - 1].0} by {
        forall key | key in Keys(pairs) ensures key in Keys(init) + {pairs[|pairs| - 1].0} {
          var i :| 0 <= i < |pairs| && pairs[i].0 == key;
          if i < |pairs| - 1 {
            assert init[i].0 == key;
          }
        }
        forall key | key in Keys(init) ensures key in Keys(pairs) {
          var i :| 0 <= i < |init| && init[i].0 == key;
          assert pairs[i].0 == key;
        }
      }
    }
  }

  /** A pair whose key does not occur after it gives the object's value for that key. */
  lemma {:induction false} ObjectOfLastWins(pairs: seq<(string, Value)>, i: nat)
    requires i < |pairs|
    requires forall j :: i < j < |pairs| ==> pairs[j].0 != pairs[i].0
    ensures pairs[i].0 in ObjectOf(pairs) && ObjectOf(pairs)[pairs[i].0] == pairs[i].1
    decreases |pairs|
  {
    if i < |pairs| - 1 {
      var init := pairs[..|pairs| - 1];
      assert init[i] == pairs[i];
      ObjectOfLastWins(init, i);
    }
  }

  /** Pairs with distinct keys give an object with one member per pair. */
  lemma ObjectOfDistinct(pairs: seq<(string, Value)>)
    requires forall i, j :: 0 <= i < j < |pairs| ==> pairs[i].0 != pairs[j].0
    ensures |ObjectOf(pairs)| == |pairs|
    ensures forall i :: 0 <= i < |pairs| ==> pairs[i].0 in ObjectOf(pairs) && ObjectOf(pairs)[pairs[i].0] == pairs[i].1
  {
    forall i | 0 <= i < |pairs| ensures pairs[i].0 in ObjectOf(pairs) && ObjectOf(pairs)[pairs[i].0] == pairs[i].1 {
      ObjectOfLastWins(pairs, i);
    }
    ObjectOfKeys(pairs);
    KeysDistinct(pairs);
  }

  lemma {:induction false} KeysDistinct(pairs: seq<(string, Value)>)
    requires forall i, j :: 0 <= i < j < |pairs| ==> pairs[i].0 != pairs[j].0
    ensures |Keys(pairs)| == |pairs|
    decreases |pairs|
  {
    if pairs != [] {
      var init := pairs[..|pairs| - 1];
      KeysDistinct(init);
      assert Keys(pairs) == Keys(init) + {pairs[|pairs| - 1].0} by {
        forall key | key in Keys(pairs) ensures key in Keys(init) + {pairs[|pairs| - 1].0} {
          var i :| 0 <= i < |pairs| && pairs[i].0 == key;
          if i < |pairs| - 1 {
            assert init[i].0 == key;
          }
        }
        forall key | key in Keys(init) ensures key in Keys(pairs) {
          var i :| 0 <= i < |init| && init[i].0 == key;
          assert pairs[i].0 == key;
        }
      }
      assert pairs[|pairs| - 1].0 !in Keys(init);
    }
  }

  /** Column `c`'s name paired with its value, for every column. */
  function Pairs(fields: seq<Field>, values: seq<Value>): (pairs: seq<(string, Value)>)
    requires |values| == |fields|
    ensures |pairs| == |fields|
    ensures forall c :: 0 <= c < |fields| ==> pairs[c] == (fields[c].name, values[c])
  {
    seq(|fields|, c requires 0 <= c < |fields| => (fields[c].name, values[c]))
  }

  /** Whether every cell of one row renders. */
  predicate RowConverts(fields: seq<Field>, row: Row)
    requires forall c :: 0 <= c < |fields| ==> Implemented(fields[c].kind)
  {
    forall c :: 0 <= c < |fields| ==> Render(fields[c].kind, c, row).Ok?
  }

  /** Whether every column has a renderer and every cell of the rows renders. */
  predicate Convertible(fields: seq<Field>, rows: seq<Row>) {
    && (forall c :: 0 <= c < |fields| ==> Implemented(fields[c].kind))
    && (forall r :: 0 <= r < |rows| ==> RowConverts(fields, rows[r]))
  }

  /** The rendered values of one row, in column order. */
  function RowValues(fields: seq<Field>, row: Row): (values: seq<Value>)
    requires forall c :: 0 <= c < |fields| ==> Implemented(fields[c].kind)
    requires RowConverts(fields, row)
    ensures |values| == |fields|
  {
    seq(|fields|, c requires 0 <= c < |fields| => Render(fields[c].kind, c, row).value)
  }

  /** The object a row becomes. */
  function RowObject(fields: seq<Field>, row: Row): map<string, Value>
    requires forall c :: 0 <= c < |fields| ==> Implemented(fields[c].kind)
    requires RowConverts(fields, row)
  {
    ObjectOf(Pairs(fields, RowValues(fields, row)))
  }

  /**
   * A row's object has the column names as keys; under each name is the
   * rendered value of the last column of that name.
   */
  lemma RowObjectMembers(fields: seq<Field>, row: Row, c: nat)
    requires forall c :: 0 <= c < |fields| ==> Implemented(fields[c].kind)
    requires RowConverts(fields, row)
    requires c < |fields| && forall d :: c < d < |fields| ==> fields[d].name != fields[c].name
    ensures RowObject(fields, row).Keys == set d | 0 <= d < |fields| :: fields[d].name
    ensures RowObject(fields, row)[fields[c].name] == Render(fields[c].kind, c, row).value
  {
    var pairs := Pairs(fields, RowValues(fields, row));
    ObjectOfKeys(pairs);
    assert Keys(pairs) == set d | 0 <= d < |fields| :: fields[d].name by {
      forall key | key in Keys(pairs) ensures key in set d | 0 <= d < |fields| :: fields[d].name {
        var d :| 0 <= d < |pairs| && pairs[d].0 == key;
        assert fields[d].name == key;
      }
      forall key | key in set d | 0 <= d < |fields| :: fields[d].name ensures key in Keys(pairs) {
        var d :| 0 <= d < |fields| && fields[d].name == key;
        assert pairs[d].0 == key;
      }
    }
    ObjectOfLastWins(pairs, c);
  }

  /** With distinct column names, a row's object has one member per column. */
  lemma RowObjectSize(fields: seq<Field>, row: Row)
    requires forall c :: 0 <= c < |fields| ==> Implemented(fields[c].kind)
    requires RowConverts(fields, row)
    requires forall c, d :: 0 <= c < d < |fields| ==> fields[c].name != fields[d].name
    ensures |RowObject(fields, row)| == |fields|
  {
    ObjectOfDistinct(Pairs(fields, RowValues(fields, row)));
  }

  /** Two columns of the same name collapse into one member: the object has fewer members than the row has columns. */
  lemma DuplicateNameShadows(fields: seq<Field>, row: Row, c: nat, d: nat)
    requires forall c :: 0 <= c < |fields| ==> Implemented(fields[c].kind)
    requires RowConverts(fields, row)
    requires c < d < |fields| && fields[c].name == fields[d].name
    ensures |RowObject(fields, row)| < |fields|
  {
    var pairs := Pairs(fields, RowValues(fields, row));
    ObjectOfKeys(pairs);
    KeysAtMost(pairs, c, d);
  }

  lemma {:induction false} KeysAtMost(pairs: seq<(string, Value)>, c: nat, d: nat)
    requires c < d < |pairs| && pairs[c].0 == pairs[d].0
    ensures |Keys(pairs)| < |pairs|
  {
    var without := pairs[..d] + pairs[d + 1..];
    assert Keys(pairs) <= Keys(without) by {
      forall key | key in Keys(pairs) ensures key in Keys(without) {
        var i :| 0 <= i < |pairs| && pairs[i].0 == key;
        if i < d {
          assert without[i] == pairs[i];
        } else if i == d {
          assert without[c] == pairs[c];
        } else {
          assert without[i - 1] == pairs[i];
        }
      }
    }
    KeysBound(without);
    SubsetCard(Keys(pairs), Keys(without));
  }

  lemma {:induction false} KeysBound(pairs: seq<(string, Value)>)
    ensures |Keys(pairs)| <= |pairs|
    decreases |pairs|
  {
    if pairs != [] {
      var init := pairs[..|pairs| - 1];
      KeysBound(init);
      assert Keys(pairs) <= Keys(init) + {pairs[|pairs| - 1].0} by {
        forall key | key in Keys(pairs) ensures key in Keys(init) + {pairs[|pairs| - 1].0} {
          var i :| 0 <= i < |pairs| && pairs[i].0 == key;
          if i < |pairs| - 1 {
            assert init[i].0 == key;
          }
        }
      }
      SubsetCard(Keys(pairs), Keys(init) + {pairs[|pairs| - 1].0});
    }
  }

  lemma SubsetCard(a: set<string>, b: set<string>)
    requires a <= b
    ensures |a| <= |b|
  {
    assert b == a + (b - a);
  }

  // ---------------------------------------------------------------------------
  // The file
  // ---------------------------------------------------------------------------

  /** What is written to the file: a line of text, or a serialized object. */
  datatype Piece = Chunk(text: string) | Object(members: map<string, Value>)

  const Open := Chunk("[\n")
  const Comma := Chunk(",\n")
  const Close := Chunk("]\n")

  /** Each object followed by a comma. */
  function Entries(objects: seq<map<string, Value>>): (e: seq<Piece>)
    ensures |e| == 2 * |objects|
    ensures forall i :: 0 <= i < |e| ==> e[i] == if i % 2 == 0 then Object(objects[i / 2]) else Comma
    decreases |objects|
  {
    if objects == [] then []
    else Entries(objects[..|objects| - 1]) + [Object(objects[|objects| - 1]), Comma]
  }

  /** The whole file for the given row objects. */
  function Document(objects: seq<map<string, Value>>): seq<Piece> {
    [Open] + Entries(objects) + [Close]
  }

  /** The objects of the rows, in source order. */
  function Objects(fields: seq<Field>, rows: seq<Row>): (objects: seq<map<string, Value>>)
    requires Convertible(fields, rows)
    ensures |objects| == |rows|
  {
    seq(|rows|, r requires 0 <= r < |rows| => RowObject(fields, rows[r]))
  }

  /** The number of leading rows that render completely. */
  function Leading(fields: seq<Field>, rows: seq<Row>): (n: nat)
    requires forall c :: 0 <= c < |fields| ==> Implemented(fields[c].kind)
    ensures n <= |rows|
    ensures forall r :: 0 <= r < n ==> RowConverts(fields, rows[r])
    ensures n < |rows| ==> !RowConverts(fields, rows[n])
    ensures Convertible(fields, rows[..n])
    decreases |rows|
  {
    if rows == [] || !RowConverts(fields, rows[0]) then 0
    else
      var n := Leading(fields, rows[1..]);
      assert forall r :: 1 <= r < n + 1 ==> rows[r] == rows[1..][r - 1];
      assert forall r :: 0 <= r < n + 1 ==> rows[..n + 1][r] == rows[r];
      n + 1
  }

  /** How many times a piece occurs. */
  function Count(pieces: seq<Piece>, p: Piece): nat
    decreases |pieces|
  {
    if pieces == [] then 0
    else Count(pieces[..|pieces| - 1], p) + (if pieces[|pieces| - 1] == p then 1 else 0)
  }

  lemma {:induction false} CountAppend(a: seq<Piece>, b: seq<Piece>, p: Piece)
    ensures Count(a + b, p) == Count(a, p) + Count(b, p)
    decreases |b|
  {
    if b == [] {
      assert a + b == a;
    } else {
      assert (a + b)[..|a + b| - 1] == a + b[..|b| - 1];
      CountAppend(a, b[..|b| - 1], p);
    }
  }

  /** The number of comma lines equals the number of objects: the last object is followed by one too. */
  lemma {:induction false} EntriesCommas(objects: seq<map<string, Value>>)
    ensures Count(Entries(objects), Comma) == |objects|
    decreases |objects|
  {
    if objects != [] {
      var init := objects[..|objects| - 1];
      EntriesCommas(init);
      var last := [Object(objects[|objects| - 1]), Comma];
      assert Entries(objects) == Entries(init) + last;
      CountAppend(Entries(init), last, Comma);
      assert Count(last, Comma) == 1 by {
        assert last[..1] == [Object(objects[|objects| - 1])];
        assert last[..1][..0] == [];
        assert Count(last[..1], Comma) == 0;
      }
    }
  }

  /**
   * The document opens with `[`, closes with `]`, and holds one comma line per
   * object, so with at least one object the line before `]` is a comma.
   */
  lemma DocumentShape(objects: seq<map<string, Value>>)
    ensures var d := Document(objects);
      && |d| == 2 * |objects| + 2
      && d[0] == Open && d[|d| - 1] == Close
      && (|objects| > 0 ==> d[|d| - 2] == Comma)
    ensures Count(Document(objects), Comma) == |objects|
  {
    var d := Document(objects);
    var e := Entries(objects);
    EntriesCommas(objects);
    CountAppend([Open], e, Comma);
    CountAppend([Open] + e, [Close], Comma);
    assert [Open][..0] == [] && [Close][..0] == [];
    if |objects| > 0 {
      assert d[|d| - 2] == e[|e| - 1];
    }
  }

  /** The text of the pieces, an object written as `serialize` makes it. */
  function Written(pieces: seq<Piece>, serialize: map<string, Value> -> string): string
    decreases |pieces|
  {
    if pieces == [] then ""
    else
      var last := pieces[|pieces| - 1];
      Written(pieces[..|pieces| - 1], serialize) + (if last.Chunk? then last.text else serialize(last.members))
  }

  lemma {:induction false} TextAppend(a: seq<Piece>, b: seq<Piece>, serialize: map<string, Value> -> string)
    ensures Written(a + b, serialize) == Written(a, serialize) + Written(b, serialize)
    decreases |b|
  {
    if b == [] {
      assert a + b == a;
    } else {
      var init := b[..|b| - 1];
      assert (a + b)[..|a + b| - 1] == a + init;
      TextAppend(a, init, serialize);
    }
  }

  /**
   * Whatever the objects serialize to, the file text starts with `"[\n"` and
   * ends with `"]\n"`; with no rows it is exactly `"[\n]\n"`, and with rows
   * it ends with `",\n]\n"`, which is not valid JSON.
   */
  lemma DocumentText(objects: seq<map<string, Value>>, serialize: map<string, Value> -> string)
    ensures var t := Written(Document(objects), serialize);
      |t| >= 4 && t[..2] == "[\n" && t[|t| - 2..] == "]\n"
    ensures objects == [] ==> Written(Document(objects), serialize) == "[\n]\n"
    ensures var t := Written(Document(objects), serialize);
      objects != [] ==> |t| >= 6 && t[|t| - 4..] == ",\n]\n"
  {
    var inner := Written(Entries(objects), serialize);
    DocumentWritten(objects, serialize);
    Bracketed(inner);
    if objects != [] {
      var front := EntriesWrittenEnd(objects, serialize);
      CommaClosed(front);
    }
  }

  lemma DocumentWritten(objects: seq<map<string, Value>>, serialize: map<string, Value> -> string)
    ensures Written(Document(objects), serialize) == "[\n" + Written(Entries(objects), serialize) + "]\n"
    ensures objects == [] ==> Written(Entries(objects), serialize) == ""
  {
    var e := Entries(objects);
    TextAppend([Open] + e, [Close], serialize);
    TextAppend([Open], e, serialize);
    WrittenSingle(Open, serialize);
    WrittenSingle(Close, serialize);
  }

  /** The entries' text ends with the comma line that follows the last object. */
  lemma EntriesWrittenEnd(objects: seq<map<string, Value>>, serialize: map<string, Value> -> string) returns (front: string)
    requires objects != []
    ensures Written(Entries(objects), serialize) == front + ",\n"
  {
    var init := objects[..|objects| - 1];
    var pieces := Entries(init) + [Object(objects[|objects| - 1])];
    assert Entries(objects) == pieces + [Comma];
    TextAppend(pieces, [Comma], serialize);
    WrittenSingle(Comma, serialize);
    front := Written(pieces, serialize);
  }

  lemma WrittenSingle(p: Piece, serialize: map<string, Value> -> string)
    ensures Written([p], serialize) == if p.Chunk? then p.text else serialize(p.members)
  {
    assert [p][..0] == [];
  }

  lemma Bracketed(x: string)
    ensures var t := "[\n" + x + "]\n";
      |t| >= 4 && t[..2] == "[\n" && t[|t| - 2..] == "]\n"
  {
  }

  lemma CommaClosed(x: string)
    ensures var t := "[\n" + (x + ",\n") + "]\n";
      |t| >= 6 && t[|t| - 4..] == ",\n]\n"
  {
  }

  // ---------------------------------------------------------------------------
  // Writing
  // ---------------------------------------------------------------------------

  /** Applying the collected renderers to a row succeeds exactly when its cells render, and gives its values. */
  lemma ApplyAllIsRowValues(fields: seq<Field>, convs: seq<Renderer>, row: Row)
    requires ConvertAll(fields) == Ok(convs)
    ensures forall c :: 0 <= c < |fields| ==> Implemented(fields[c].kind)
    ensures ApplyAll(convs, row).Ok? <==> RowConverts(fields, row)
    ensures ApplyAll(convs, row).Ok? ==> ApplyAll(convs, row).value == RowValues(fields, row)
    ensures ApplyAll(convs, row).Fail? ==> ApplyAll(convs, row).failure.DecodePanic? || ApplyAll(convs, row).failure.DecimalNotF64?
  {
    assert forall c :: 0 <= c < |fields| ==> convs[c](c, row) == Render(fields[c].kind, c, row);
  }

  /**
   * `JSON::write`: `[`, then (for a non-empty result) one object and a comma
   * line per row, then `]`. A panic stops the writing and leaves in the file
   * what was written before it: `[` and the objects of the rows before the
   * first row that does not render.
   */
  method Write(result: seq<Row>, db: Backend) returns (out: seq<Piece>, failure: Option<Failure>)
    ensures |result| == 0 ==> failure == None && out == [Open, Close]
    ensures |result| > 0 ==> (failure.None? <==> Convertible(Schema(db, result), result))
    ensures |result| > 0 && failure.None? ==> out == Document(Objects(Schema(db, result), result))
    ensures failure.Some? ==> |result| > 0 && |out| > 0 && out[0] == Open && Close !in out
    ensures failure.Some? && !(forall c :: 0 <= c < |result[0].columns| ==> Implemented(Schema(db, result)[c].kind)) ==>
      out == [Open] && failure.value.Unimplemented?
    ensures failure.Some? && (forall c :: 0 <= c < |result[0].columns| ==> Implemented(Schema(db, result)[c].kind)) ==>
      var fields := Schema(db, result);
      var n := Leading(fields, result);
      && n < |result|
      && out == [Open] + Entries(Objects(fields, result[..n]))
      && (failure.value.DecodePanic? || failure.value.DecimalNotF64?)
  {
    out := [Open];
    failure := None;
    if |result| > 0 {
      var fields := Schema(db, result);
      var convs := ConvertAll(fields);
      if convs.Fail? {
        return out, Some(convs.failure);
      }
      var entries;
      entries, failure := WriteObjects(fields, convs.value, result);
      EntriesNoClose(Objects(fields, result[..Leading(fields, result)]));
      out := out + entries;
      if failure.Some? {
        return;
      }
    }
    out := out + [Close];
  }

  /** The row loop: each row's object followed by a comma line, until a row does not render. */
  method WriteObjects(fields: seq<Field>, convs: seq<Renderer>, rows: seq<Row>) returns (entries: seq<Piece>, failure: Option<Failure>)
    requires ConvertAll(fields) == Ok(convs)
    ensures forall c :: 0 <= c < |fields| ==> Implemented(fields[c].kind)
    ensures failure.None? <==> Convertible(fields, rows)
    ensures failure.None? ==> entries == Entries(Objects(fields, rows))
    ensures failure.Some? ==> Leading(fields, rows) < |rows|
    ensures failure.Some? ==> entries == Entries(Objects(fields, rows[..Leading(fields, rows)]))
    ensures failure.Some? ==> failure.value.DecodePanic? || failure.value.DecimalNotF64?
  {
    entries := [];
    for r := 0 to |rows|
      invariant Convertible(fields, rows[..r])
      invariant entries == Entries(Objects(fields, rows[..r]))
    {
      ApplyAllIsRowValues(fields, convs, rows[r]);
      var values := ApplyAll(convs, rows[r]);
      if values.Fail? {
        PrefixConverts(fields, rows, r);
        LeadingAt(fields, rows, r);
        return entries, Some(values.failure);
      }
      var obj := ObjectOf(Pairs(fields, values.value));
      EntriesExtend(fields, rows, r);
      entries := entries + [Object(obj), Comma];
    }
    assert rows[..|rows|] == rows;
    return entries, None;
  }

  /** A prefix of the rows renders exactly when each of its rows does. */
  lemma PrefixConverts(fields: seq<Field>, rows: seq<Row>, n: nat)
    requires forall c :: 0 <= c < |fields| ==> Implemented(fields[c].kind)
    requires n <= |rows|
    ensures Convertible(fields, rows[..n]) <==> forall r :: 0 <= r < n ==> RowConverts(fields, rows[r])
  {
    assert forall r :: 0 <= r < n ==> rows[..n][r] == rows[r];
  }

  /** One more rendered row adds its object and a comma line to the entries. */
  lemma EntriesExtend(fields: seq<Field>, rows: seq<Row>, n: nat)
    requires n < |rows|
    requires Convertible(fields, rows[..n]) && RowConverts(fields, rows[n])
    ensures Convertible(fields, rows[..n + 1])
    ensures Entries(Objects(fields, rows[..n + 1])) ==
      Entries(Objects(fields, rows[..n])) + [Object(RowObject(fields, rows[n])), Comma]
  {
    PrefixConverts(fields, rows, n);
    PrefixConverts(fields, rows, n + 1);
    var longer := Objects(fields, rows[..n + 1]);
    var shorter := Objects(fields, rows[..n]);
    assert longer[..|longer| - 1] == shorter by {
      forall i | 0 <= i < n
        ensures longer[i] == shorter[i]
      {
        assert rows[..n + 1][i] == rows[..n][i];
      }
    }
    assert longer[|longer| - 1] == RowObject(fields, rows[n]);
  }

  /** The first row that does not render is where `Leading` stops. */
  lemma {:induction false} LeadingAt(fields: seq<Field>, rows: seq<Row>, n: nat)
    requires forall c :: 0 <= c < |fields| ==> Implemented(fields[c].kind)
    requires n < |rows| && !RowConverts(fields, rows[n])
    requires forall r :: 0 <= r < n ==> RowConverts(fields, rows[r])
    ensures Leading(fields, rows) == n
  {
    if n > 0 {
      LeadingAt(fields, rows[1..], n - 1);
    }
  }

  lemma EntriesNoClose(objects: seq<map<string, Value>>)
    ensures Close !in Entries(objects)
    ensures Close !in [Open] + Entries(objects)
  {
  }
}
