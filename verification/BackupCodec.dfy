/** How backup artifacts encode row values as JSON, and what decoding gives back. */
module BackupCodec {
  import opened Common

  datatype Field = Field(key: string, value: Value)

  /**
   * A column value: JSON, or one of the two kinds JSON lacks. A moment is a wall-clock reading in microseconds with its
   * offset from UTC, if it has one; an object's fields are in insertion order.
   */
  datatype Value =
    | Null
    | Bool(truth: bool)
    | Number(n: int)
    | Text(text: string)
    | Bytes(bytes: seq<nat>)
    | Moment(wall: int, offset: Option<int>)
    | List(items: seq<Value>)
    | Dict(fields: seq<Field>)

  datatype DecodeError = BadBytes | BadMoment

  /** Base64 and ISO 8601 text. */
  datatype Texts = Texts(
    b64: seq<nat> -> string, unb64: string -> Option<seq<nat>>,
    iso: int -> string, parse: string -> Option<Value>)

  /** Reading undoes writing; a moment is written as UTC. */
  ghost predicate Lawful(t: Texts) {
    && (forall bytes: seq<nat> :: t.unb64(t.b64(bytes)) == Some(bytes))
    && (forall instant: int :: t.parse(t.iso(instant)) == Some(Moment(instant, Some(0))))
  }

  const ENCODING_KEY: string := "__backup_encoding__"
  const BYTES_MARKER: string := "bytes_b64"
  const VALUE_KEY: string := "value"

  /** A moment without an offset is taken to be UTC. */
  function Instant(wall: int, offset: Option<int>): int { wall - (if offset.Some? then offset.value else 0) }

  function Get(fields: seq<Field>, key: string): Option<Value> {
    if fields == [] then None else if fields[0].key == key then Some(fields[0].value) else Get(fields[1..], key)
  }

  function Encode(t: Texts, v: Value): Value {
    match v
    case Moment(wall, offset) => Text(t.iso(Instant(wall, offset)))
    case Bytes(bytes) => Dict([Field(ENCODING_KEY, Text(BYTES_MARKER)), Field(VALUE_KEY, Text(t.b64(bytes)))])
    case Dict(fields) => Dict(EncodeFields(t, fields))
    case List(items) => List(EncodeItems(t, items))
    case _ => v
  }

  function EncodeFields(t: Texts, fields: seq<Field>): seq<Field> {
    if fields == [] then [] else [Field(fields[0].key, Encode(t, fields[0].value))] + EncodeFields(t, fields[1..])
  }

  function EncodeItems(t: Texts, items: seq<Value>): seq<Value> {
    if items == [] then [] else [Encode(t, items[0])] + EncodeItems(t, items[1..])
  }

  predicate Marked(fields: seq<Field>) { Get(fields, ENCODING_KEY) == Some(Text(BYTES_MARKER)) }

  function DecodeBytes(t: Texts, fields: seq<Field>): Outcome<Value, DecodeError> {
    match Get(fields, VALUE_KEY)
    case Some(Text(text)) => if t.unb64(text).Some? then Ok(Bytes(t.unb64(text).value)) else Rejected(BadBytes)
    case _ => Rejected(BadBytes)
  }

  function Decode(t: Texts, v: Value): Outcome<Value, DecodeError> {
    match v
    case Dict(fields) =>
      if Marked(fields) then DecodeBytes(t, fields)
      else (match DecodeFields(t, fields) case Ok(d) => Ok(Dict(d)) case Rejected(e) => Rejected(e))
    case List(items) => (match DecodeItems(t, items) case Ok(d) => Ok(List(d)) case Rejected(e) => Rejected(e))
    case _ => Ok(v)
  }

  function DecodeFields(t: Texts, fields: seq<Field>): Outcome<seq<Field>, DecodeError> {
    if fields == [] then Ok([])
    else
      match Decode(t, fields[0].value)
      case Rejected(e) => Rejected(e)
      case Ok(v) =>
        match DecodeFields(t, fields[1..])
        case Ok(rest) => Ok([Field(fields[0].key, v)] + rest)
        case Rejected(e) => Rejected(e)
  }

  function DecodeItems(t: Texts, items: seq<Value>): Outcome<seq<Value>, DecodeError> {
    if items == [] then Ok([])
    else
      match Decode(t, items[0])
      case Rejected(e) => Rejected(e)
      case Ok(v) => (match DecodeItems(t, items[1..]) case Ok(rest) => Ok([v] + rest) case Rejected(e) => Rejected(e))
  }

  // ---- Values ----

  /** No moment inside, and no object that already carries the bytes marker. */
  predicate Plain(v: Value) {
    match v
    case Moment(_, _) => false
    case Dict(fields) => !Marked(fields) && PlainFields(fields)
    case List(items) => PlainItems(items)
    case _ => true
  }

  predicate PlainFields(fields: seq<Field>) { fields == [] || (Plain(fields[0].value) && PlainFields(fields[1..])) }

  predicate PlainItems(items: seq<Value>) { items == [] || (Plain(items[0]) && PlainItems(items[1..])) }

  lemma {:induction false} EncodedField(t: Texts, fields: seq<Field>, key: string)
    ensures Get(EncodeFields(t, fields), key) ==
      match Get(fields, key) case Some(v) => Some(Encode(t, v)) case None => None
  {
    if fields != [] {
      assert EncodeFields(t, fields)[1..] == EncodeFields(t, fields[1..]);
      EncodedField(t, fields[1..], key);
    }
  }

  /** The fields of a plain object include no moment to be mistaken for the marker. */
  lemma {:induction false} PlainField(fields: seq<Field>, key: string)
    requires PlainFields(fields)
    ensures Get(fields, key).Some? ==> !Get(fields, key).value.Moment?
  {
    if fields != [] { PlainField(fields[1..], key); }
  }

  /** A value survives encoding and decoding exactly when it holds no moment and no object with the bytes marker. */
  lemma {:induction false} ValueRoundTripIff(t: Texts, v: Value)
    requires Lawful(t)
    ensures Decode(t, Encode(t, v)) == Ok(v) <==> Plain(v)
    decreases v
  {
    match v
    case Dict(fields) =>
      FieldsRoundTripIff(t, fields);
      EncodedField(t, fields, ENCODING_KEY);
      if PlainFields(fields) { PlainField(fields, ENCODING_KEY); }
    case List(items) => ItemsRoundTripIff(t, items);
    case Bytes(bytes) => BytesRoundTrip(t, bytes);
    case _ =>
  }

  lemma BytesRoundTrip(t: Texts, bytes: seq<nat>)
    requires Lawful(t)
    ensures Decode(t, Encode(t, Bytes(bytes))) == Ok(Bytes(bytes))
  {
    var fields := Encode(t, Bytes(bytes)).fields;
    assert Get(fields, ENCODING_KEY) == Some(Text(BYTES_MARKER));
    assert VALUE_KEY[0] != ENCODING_KEY[0];
    assert fields[1..][0] == fields[1];
    assert Get(fields, VALUE_KEY) == Get(fields[1..], VALUE_KEY) == Some(Text(t.b64(bytes)));
  }

  lemma {:induction false} FieldsRoundTripIff(t: Texts, fields: seq<Field>)
    requires Lawful(t)
    ensures DecodeFields(t, EncodeFields(t, fields)) == Ok(fields) <==> PlainFields(fields)
    decreases fields
  {
    if fields != [] {
      ValueRoundTripIff(t, fields[0].value);
      FieldsRoundTripIff(t, fields[1..]);
      var encoded := EncodeFields(t, fields);
      assert encoded[1..] == EncodeFields(t, fields[1..]);
      assert fields == [Field(fields[0].key, fields[0].value)] + fields[1..];
      var decoded := DecodeFields(t, encoded);
      if decoded.Ok? { assert decoded.value[1..] == DecodeFields(t, encoded[1..]).value; }
    }
  }

  lemma {:induction false} ItemsRoundTripIff(t: Texts, items: seq<Value>)
    requires Lawful(t)
    ensures DecodeItems(t, EncodeItems(t, items)) == Ok(items) <==> PlainItems(items)
    decreases items
  {
    if items != [] {
      ValueRoundTripIff(t, items[0]);
      ItemsRoundTripIff(t, items[1..]);
      var encoded := EncodeItems(t, items);
      assert encoded[1..] == EncodeItems(t, items[1..]);
      assert items == [items[0]] + items[1..];
      var decoded := DecodeItems(t, encoded);
      if decoded.Ok? { assert decoded.value[1..] == DecodeItems(t, encoded[1..]).value; }
    }
  }

  // ---- Rows ----

  datatype Column = Column(name: string, isMoment: bool)

  type Row = map<string, Value>

  ghost predicate DistinctNames(columns: seq<Column>)
  {
    forall i, j :: 0 <= i < j < |columns| ==> columns[i].name != columns[j].name
  }

  predicate HasColumns(row: Row, columns: seq<Column>) { forall i :: 0 <= i < |columns| ==> columns[i].name in row }

  function EncodeRow(t: Texts, columns: seq<Column>, row: Row): Row
    requires HasColumns(row, columns)
  {
    if columns == [] then map[]
    else
      var last := columns[|columns| - 1];
      EncodeRow(t, columns[..|columns| - 1], row)[last.name := Encode(t, row[last.name])]
  }

  function DecodeColumn(t: Texts, isMoment: bool, v: Value): Outcome<Value, DecodeError> {
    match Decode(t, v)
    case Rejected(e) => Rejected(e)
    case Ok(w) =>
      if w == Null || !isMoment then Ok(w)
      else if w.Text? && t.parse(w.text).Some? && t.parse(w.text).value.Moment? then
        var m := t.parse(w.text).value;
        Ok(Moment(Instant(m.wall, m.offset), Some(0)))
      else Rejected(BadMoment)
  }

  /** Columns the payload lacks are skipped, payload keys that are no columns ignored; the first bad value stops it. */
  function DecodeRow(t: Texts, columns: seq<Column>, payload: Row): Outcome<Row, DecodeError> {
    if columns == [] then Ok(map[])
    else
      var last := columns[|columns| - 1];
      match DecodeRow(t, columns[..|columns| - 1], payload)
      case Rejected(e) => Rejected(e)
      case Ok(row) =>
        if last.name !in payload then Ok(row)
        else
          match DecodeColumn(t, last.isMoment, payload[last.name])
          case Rejected(e) => Rejected(e)
          case Ok(v) => Ok(row[last.name := v])
  }

  /** Moments come back as the same instant in UTC, everything else as it was. */
  function Normalized(v: Value): Value { if v.Moment? then Moment(Instant(v.wall, v.offset), Some(0)) else v }

  /** A column of moments holds a moment or null. */
  ghost predicate WellTyped(columns: seq<Column>, row: Row)
    requires HasColumns(row, columns)
  {
    forall i :: 0 <= i < |columns| && columns[i].isMoment ==> row[columns[i].name].Moment? || row[columns[i].name].Null?
  }

  /** The row with its moments in UTC. */
  function NormalizedRow(columns: seq<Column>, row: Row): Row
    requires HasColumns(row, columns)
  {
    if columns == [] then map[]
    else
      var last := columns[|columns| - 1];
      NormalizedRow(columns[..|columns| - 1], row)[last.name := Normalized(row[last.name])]
  }

  ghost predicate PlainRow(columns: seq<Column>, row: Row)
    requires HasColumns(row, columns)
  {
    forall i :: 0 <= i < |columns| && !columns[i].isMoment ==> Plain(row[columns[i].name])
  }

  lemma {:induction false} EncodeRowAt(t: Texts, columns: seq<Column>, row: Row)
    requires HasColumns(row, columns)
    ensures forall i ::
      0 <= i < |columns| ==>
        columns[i].name in EncodeRow(t, columns, row)
        && EncodeRow(t, columns, row)[columns[i].name] == Encode(t, row[columns[i].name])
  {
    if columns != [] { EncodeRowAt(t, columns[..|columns| - 1], row); }
  }

  lemma ColumnRoundTripIff(t: Texts, isMoment: bool, v: Value)
    requires Lawful(t) && (isMoment ==> v.Moment? || v.Null?)
    ensures DecodeColumn(t, isMoment, Encode(t, v)) == Ok(Normalized(v)) <==> isMoment || Plain(v)
    ensures isMoment ==> DecodeColumn(t, isMoment, Encode(t, v)).Ok?
  {
    if isMoment {
    } else if v.Moment? {
      assert Decode(t, Encode(t, v)) == Ok(Encode(t, v));
    } else {
      ValueRoundTripIff(t, v);
    }
  }

  lemma {:induction false} KeysAreColumns(t: Texts, columns: seq<Column>, row: Row, payload: Row, name: string)
    requires HasColumns(row, columns) && forall i :: 0 <= i < |columns| ==> columns[i].name != name
    ensures name !in NormalizedRow(columns, row)
    ensures DecodeRow(t, columns, payload).Ok? ==> name !in DecodeRow(t, columns, payload).value
  {
    ColumnsOnly(t, columns, payload, name);
    if columns != [] { KeysAreColumns(t, columns[..|columns| - 1], row, payload, name); }
  }

  lemma {:induction false} ColumnsOnly(t: Texts, columns: seq<Column>, payload: Row, name: string)
    requires forall i :: 0 <= i < |columns| ==> columns[i].name != name
    ensures DecodeRow(t, columns, payload).Ok? ==> name !in DecodeRow(t, columns, payload).value
  {
    if columns != [] { ColumnsOnly(t, columns[..|columns| - 1], payload, name); }
  }

  lemma SameUpdate(a: Row, b: Row, name: string, v: Value, w: Value)
    requires name !in a && name !in b
    ensures a[name := v] == b[name := w] <==> a == b && v == w
  {
    assert a[name := v] - {name} == a && b[name := w] - {name} == b;
    assert a[name := v][name] == v && b[name := w][name] == w;
  }

  /** Column by column over a payload that encodes the row. */
  lemma {:induction false} DecodeRowIff(t: Texts, columns: seq<Column>, row: Row, payload: Row)
    requires Lawful(t) && HasColumns(row, columns) && DistinctNames(columns) && WellTyped(columns, row)
    requires forall i ::
      0 <= i < |columns| ==> columns[i].name in payload && payload[columns[i].name] == Encode(t, row[columns[i].name])
    ensures DecodeRow(t, columns, payload) == Ok(NormalizedRow(columns, row)) <==> PlainRow(columns, row)
  {
    if columns != [] {
      var n := |columns| - 1;
      var last := columns[n];
      var before := DecodeRow(t, columns[..n], payload);
      var one := DecodeColumn(t, last.isMoment, payload[last.name]);
      DecodeRowIff(t, columns[..n], row, payload);
      ColumnRoundTripIff(t, last.isMoment, row[last.name]);
      KeysAreColumns(t, columns[..n], row, payload, last.name);
      if before.Ok? && one.Ok? {
        SameUpdate(before.value, NormalizedRow(columns[..n], row), last.name, one.value, Normalized(row[last.name]));
      }
      PlainRowSplit(columns, row);
    }
  }

  lemma PlainRowSplit(columns: seq<Column>, row: Row)
    requires columns != [] && HasColumns(row, columns)
    ensures var n := |columns| - 1;
      PlainRow(columns, row) <==> PlainRow(columns[..n], row) && (columns[n].isMoment || Plain(row[columns[n].name]))
  {
    var n := |columns| - 1;
    assert forall i :: 0 <= i < n ==> columns[..n][i] == columns[i];
  }

  /** A row comes back, with its moments in UTC, exactly when its other columns are plain. */
  lemma RowRoundTripIff(t: Texts, columns: seq<Column>, row: Row)
    requires Lawful(t) && HasColumns(row, columns) && DistinctNames(columns) && WellTyped(columns, row)
    ensures DecodeRow(t, columns, EncodeRow(t, columns, row)) == Ok(NormalizedRow(columns, row)) <==>
      PlainRow(columns, row)
  {
    EncodeRowAt(t, columns, row);
    DecodeRowIff(t, columns, row, EncodeRow(t, columns, row));
  }

  /** `to` is what `from` comes back as: the same moment on a clock that shows UTC, or the very same value. */
  ghost predicate InUtc(from: Value, to: Value) {
    match from
    case Moment(wall, Some(offset)) => to.Moment? && to.offset == Some(0) && to.wall + offset == wall
    case Moment(wall, None) => to == Moment(wall, Some(0))
    case _ => to == from
  }

  /** The row given back has every column, each holding what it held before, moments as the same instant in UTC. */
  lemma {:induction false} NormalizedRowAt(columns: seq<Column>, row: Row, i: nat)
    requires HasColumns(row, columns) && DistinctNames(columns) && i < |columns|
    ensures columns[i].name in NormalizedRow(columns, row)
      && NormalizedRow(columns, row)[columns[i].name] == Normalized(row[columns[i].name])
      && InUtc(row[columns[i].name], NormalizedRow(columns, row)[columns[i].name])
  {
    if i < |columns| - 1 { NormalizedRowAt(columns[..|columns| - 1], row, i); }
  }

  /**
   * An object that carries the marker does not come back as it was, whatever else it holds, neither by itself nor as
   * the value of an object or the item of a list.
   */
  lemma MarkedObjectIsLost(t: Texts, fields: seq<Field>)
    requires Lawful(t) && Marked(fields)
    ensures Decode(t, Encode(t, Dict(fields))) != Ok(Dict(fields))
    ensures forall key :: Decode(t, Encode(t, Dict([Field(key, Dict(fields))]))) != Ok(Dict([Field(key, Dict(fields))]))
    ensures Decode(t, Encode(t, List([Dict(fields)]))) != Ok(List([Dict(fields)]))
  {
    ValueRoundTripIff(t, Dict(fields));
    ValueRoundTripIff(t, List([Dict(fields)]));
    forall key
      ensures Decode(t, Encode(t, Dict([Field(key, Dict(fields))]))) != Ok(Dict([Field(key, Dict(fields))]))
    {
      assert !PlainFields([Field(key, Dict(fields))]);
      ValueRoundTripIff(t, Dict([Field(key, Dict(fields))]));
    }
  }

  // ---- What is written ----

  /** `to` is the JSON written for `from`: moments as their UTC text, bytes as a marked object, the rest as it is. */
  ghost predicate WrittenAs(t: Texts, from: Value, to: Value)
    decreases from
  {
    match from
    case Moment(wall, Some(offset)) => exists utc :: utc + offset == wall && to == Text(t.iso(utc))
    case Moment(wall, None) => to == Text(t.iso(wall))
    case Bytes(bytes) =>
      to == Dict([Field("__backup_encoding__", Text("bytes_b64")), Field("value", Text(t.b64(bytes)))])
    case Dict(fields) =>
      && to.Dict? && |to.fields| == |fields|
      && forall i :: 0 <= i < |fields| ==>
           to.fields[i].key == fields[i].key && WrittenAs(t, fields[i].value, to.fields[i].value)
    case List(items) =>
      && to.List? && |to.items| == |items| && forall i :: 0 <= i < |items| ==> WrittenAs(t, items[i], to.items[i])
    case _ => to == from
  }

  /** Encoding writes what is to be written, at any depth. */
  lemma {:induction false} EncodingWrites(t: Texts, v: Value)
    ensures WrittenAs(t, v, Encode(t, v))
    decreases v
  {
    match v
    case Moment(wall, offset) => assert Instant(wall, offset) + (if offset.Some? then offset.value else 0) == wall;
    case Dict(fields) => FieldsAreWritten(t, fields);
    case List(items) => ItemsAreWritten(t, items);
    case _ =>
  }

  lemma {:induction false} FieldsAreWritten(t: Texts, fields: seq<Field>)
    ensures |EncodeFields(t, fields)| == |fields|
    ensures forall i :: 0 <= i < |fields| ==>
              && EncodeFields(t, fields)[i].key == fields[i].key
              && WrittenAs(t, fields[i].value, EncodeFields(t, fields)[i].value)
    decreases fields
  {
    if fields != [] {
      EncodingWrites(t, fields[0].value);
      FieldsAreWritten(t, fields[1..]);
      assert forall i :: 0 < i < |fields| ==> fields[i] == fields[1..][i - 1];
    }
  }

  lemma {:induction false} ItemsAreWritten(t: Texts, items: seq<Value>)
    ensures |EncodeItems(t, items)| == |items|
    ensures forall i :: 0 <= i < |items| ==> WrittenAs(t, items[i], EncodeItems(t, items)[i])
    decreases items
  {
    if items != [] {
      EncodingWrites(t, items[0]);
      ItemsAreWritten(t, items[1..]);
      assert forall i :: 0 < i < |items| ==> items[i] == items[1..][i - 1];
    }
  }

  /** Only one JSON value is right for a value. */
  lemma {:induction false} WrittenOneWay(t: Texts, from: Value, a: Value, b: Value)
    requires WrittenAs(t, from, a) && WrittenAs(t, from, b)
    ensures a == b
    decreases from
  {
    match from
    case Dict(fields) =>
      forall i | 0 <= i < |fields|
        ensures a.fields[i] == b.fields[i]
      {
        WrittenOneWay(t, fields[i].value, a.fields[i].value, b.fields[i].value);
      }
      assert a.fields == b.fields;
    case List(items) =>
      forall i | 0 <= i < |items|
        ensures a.items[i] == b.items[i]
      {
        WrittenOneWay(t, items[i], a.items[i], b.items[i]);
      }
      assert a.items == b.items;
    case _ =>
  }

  /** Two moments are written alike exactly when they are the same instant; no offset counts as UTC. */
  lemma SameInstantSameText(t: Texts, w1: int, o1: int, w2: int, o2: int)
    requires Lawful(t)
    ensures Encode(t, Moment(w1, Some(o1))) == Encode(t, Moment(w2, Some(o2))) <==> w1 - o1 == w2 - o2
    ensures Encode(t, Moment(w1, Some(o1))) == Encode(t, Moment(w2, None)) <==> w1 - o1 == w2
  {
    assert t.parse(t.iso(w1 - o1)) == Some(Moment(w1 - o1, Some(0)));
    assert t.parse(t.iso(w2 - o2)) == Some(Moment(w2 - o2, Some(0)));
    assert t.parse(t.iso(w2)) == Some(Moment(w2, Some(0)));
  }

  /**
   * A column of moments reads back the same instant in UTC; null stays, and anything but a moment's text is an error.
   */
  lemma MomentsComeBack(t: Texts, v: Value)
    ensures Lawful(t) && v.Moment? ==>
      var back := DecodeColumn(t, true, Encode(t, v)); back.Ok? && InUtc(v, back.value)
    ensures v.Text? && t.parse(v.text).Some? && t.parse(v.text).value.Moment? ==>
      var back := DecodeColumn(t, true, v); back.Ok? && InUtc(t.parse(v.text).value, back.value)
    ensures v.Null? ==> DecodeColumn(t, true, v) == Ok(Null)
    ensures v.Bool? || v.Number? || v.List? || v.Dict? || (v.Text? && t.parse(v.text).None?) ==>
      DecodeColumn(t, true, v).Rejected?
  {
  }

  /** An object with the marker is bytes or damaged: without base64 text as its value it is refused. */
  lemma DamagedBytesAreRefused(t: Texts, fields: seq<Field>)
    requires Get(fields, "__backup_encoding__") == Some(Text("bytes_b64"))
    ensures
      match Get(fields, "value")
      case Some(Text(text)) =>
        (match t.unb64(text)
         case Some(bytes) => Decode(t, Dict(fields)) == Ok(Bytes(bytes))
         case None => Decode(t, Dict(fields)) == Rejected(BadBytes))
      case _ => Decode(t, Dict(fields)) == Rejected(BadBytes)
  {
  }

  /** A decoded row has a column exactly if the payload has it, with the decoded value; it is refused for a bad one. */
  lemma {:induction false} DecodedRowAt(t: Texts, columns: seq<Column>, payload: Row)
    requires DistinctNames(columns)
    ensures
      var r := DecodeRow(t, columns, payload);
      && (r.Ok? ==> forall i :: 0 <= i < |columns| ==>
            && (columns[i].name in r.value <==> columns[i].name in payload)
            && (columns[i].name in payload ==>
                  DecodeColumn(t, columns[i].isMoment, payload[columns[i].name]) == Ok(r.value[columns[i].name])))
      && (r.Rejected? ==> exists i ::
            && 0 <= i < |columns| && columns[i].name in payload
            && DecodeColumn(t, columns[i].isMoment, payload[columns[i].name]) == Rejected(r.error))
  {
    if columns != [] {
      var n := |columns| - 1;
      DecodedRowAt(t, columns[..n], payload);
      var before := DecodeRow(t, columns[..n], payload);
      if before.Rejected? {
        var i :| 0 <= i < n && columns[..n][i].name in payload
                 && DecodeColumn(t, columns[..n][i].isMoment, payload[columns[..n][i].name]) == Rejected(before.error);
        assert columns[i] == columns[..n][i];
      } else {
        assert forall i :: 0 <= i < n ==> columns[..n][i] == columns[i];
        ColumnsOnly(t, columns[..n], payload, columns[n].name);
      }
    }
  }

  // ---- The loops ----

  method SerializeRow(t: Texts, columns: seq<Column>, row: Row) returns (payload: Row)
    requires HasColumns(row, columns)
    ensures payload == EncodeRow(t, columns, row)
  {
    payload := map[];
    for i := 0 to |columns|
      invariant payload == EncodeRow(t, columns[..i], row)
    {
      payload := payload[columns[i].name := Encode(t, row[columns[i].name])];
      assert columns[..i + 1][..i] == columns[..i];
    }
    assert columns[..|columns|] == columns;
  }

  method SerializeModelRows(t: Texts, columns: seq<Column>, rows: seq<Row>) returns (serialized: seq<Row>)
    requires forall k :: 0 <= k < |rows| ==> HasColumns(rows[k], columns)
    ensures |serialized| == |rows| && forall k :: 0 <= k < |rows| ==> serialized[k] == EncodeRow(t, columns, rows[k])
    ensures forall k, i :: 0 <= k < |rows| && 0 <= i < |columns| ==>
              && columns[i].name in rows[k] && columns[i].name in serialized[k]
              && WrittenAs(t, rows[k][columns[i].name], serialized[k][columns[i].name])
  {
    serialized := [];
    for k := 0 to |rows|
      invariant |serialized| == k && forall j :: 0 <= j < k ==> serialized[j] == EncodeRow(t, columns, rows[j])
    {
      var payload := SerializeRow(t, columns, rows[k]);
      serialized := serialized + [payload];
    }
    forall k, i | 0 <= k < |rows| && 0 <= i < |columns|
      ensures columns[i].name in serialized[k]
      ensures WrittenAs(t, rows[k][columns[i].name], serialized[k][columns[i].name])
    {
      EncodeRowAt(t, columns, rows[k]);
      EncodingWrites(t, rows[k][columns[i].name]);
    }
  }

  method DecodeRowForInsert(t: Texts, columns: seq<Column>, payload: Row) returns (decoded: Outcome<Row, DecodeError>)
    ensures decoded == DecodeRow(t, columns, payload)
  {
    var row: Row := map[];
    for i := 0 to |columns|
      invariant DecodeRow(t, columns[..i], payload) == Ok(row)
    {
      var column := columns[i];
      assert columns[..i + 1][..i] == columns[..i];
      if column.name in payload {
        var value := DecodeColumn(t, column.isMoment, payload[column.name]);
        if value.Rejected? {
          StopsAtFirstError(t, columns, payload, i + 1);
          return Rejected(value.error);
        }
        row := row[column.name := value.value];
      }
    }
    assert columns[..|columns|] == columns;
    return Ok(row);
  }

  lemma {:induction false} StopsAtFirstError(t: Texts, columns: seq<Column>, payload: Row, n: nat)
    requires n <= |columns| && DecodeRow(t, columns[..n], payload).Rejected?
    ensures DecodeRow(t, columns, payload) == DecodeRow(t, columns[..n], payload)
    decreases |columns|
  {
    if n == |columns| {
      assert columns[..n] == columns;
    } else {
      assert columns[..|columns| - 1][..n] == columns[..n];
      StopsAtFirstError(t, columns[..|columns| - 1], payload, n);
    }
  }
}
