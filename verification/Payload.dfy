/** Statement requests: the JSON payload a client builds, and what a server reads in its bytes. */
module Payload {
  import opened Wrappers
  import opened Digits
  import opened Json
  import opened Escaping
  import Utf8

  /** A bound value as a type tag and its text; `Unbindable` stands for a value the binder or encoder rejects. */
  datatype Value = Bindable(tag: string, text: Option<string>) | Unbindable

  type Row = seq<Value>

  predicate AllBindable(values: seq<Value>) {
    forall i | 0 <= i < |values| :: values[i].Bindable?
  }

  /** Client state a payload depends on. An empty string means the setting is not given. */
  datatype Session = Session(
    timeout: Option<nat>,
    database: string,
    schema: string,
    warehouse: string,
    role: string,
    timezone: string,
    parameters: seq<Field>)

  function BindJson(v: Value): (j: Json)
    requires v.Bindable?
    ensures Serializable(j)
  {
    var text := match v.text case None => Null case Some(t) => Text(t);
    var fields := [Field("type", Text(v.tag)), Field("value", text)];
    assert fields[0].value == Text(v.tag) && fields[1].value == text;
    Object(fields)
  }

  /** `to_bindings`: one field per value, keyed by its 1-based position after `from`. */
  function Bindings(values: seq<Value>, from: nat): (fields: seq<Field>)
    requires AllBindable(values)
    ensures |fields| == |values| && AllSerializable(fields)
  {
    if values == [] then [] else [Field(Str(from + 1), BindJson(values[0]))] + Bindings(values[1..], from + 1)
  }

  /** `d[key] = value` on an insertion-ordered dictionary. */
  function Put(fields: seq<Field>, key: string, value: Json): seq<Field> {
    if fields == [] then [Field(key, value)]
    else if fields[0].key == key then [Field(key, value)] + fields[1..]
    else [fields[0]] + Put(fields[1..], key, value)
  }

  function Given(key: string, value: string): seq<Field> {
    if value == "" then [] else [Field(key, Text(value))]
  }

  function Parameters(session: Session): seq<Field> {
    if session.timezone == "" then session.parameters
    else Put(session.parameters, "TIMEZONE", Text(session.timezone))
  }

  /** Everything in a payload except the statement and its bindings. */
  function ContextFields(session: Session): seq<Field> {
    (if session.timeout.Some? then [Field("timeout", Number(Str(session.timeout.value)))] else [])
    + Given("database", session.database)
    + Given("schema", session.schema)
    + Given("warehouse", session.warehouse)
    + Given("role", session.role)
    + (if Parameters(session) == [] then [] else [Field("parameters", Object(Parameters(session)))])
  }

  predicate Sendable(session: Session) {
    AllSerializable(ContextFields(session))
  }

  function PayloadOf(session: Session, sql: string, values: seq<Value>): (j: Json)
    requires AllBindable(values)
    ensures Sendable(session) ==> Serializable(j)
  {
    Object([Field("statement", Text(sql))] + ContextFields(session)
           + (if values == [] then [] else [Field("bindings", Object(Bindings(values, 0)))]))
  }

  // ---------------------------------------------------------------- what a payload says of the session

  /** `fields.get(key)`. */
  function Find(fields: seq<Field>, key: string): Option<Json> {
    if fields == [] then None
    else if fields[0].key == key then Some(fields[0].value)
    else Find(fields[1..], key)
  }

  function ReadText(fields: seq<Field>, key: string): Option<string> {
    match Find(fields, key) case Some(Text(text)) => Some(text) case _ => None
  }

  /** The session settings a server reads in a payload. */
  datatype Settings = Settings(
    timeout: Option<int>,
    database: Option<string>,
    schema: Option<string>,
    warehouse: Option<string>,
    role: Option<string>,
    parameters: Option<seq<Field>>)

  function ReadSettings(fields: seq<Field>): Settings {
    Settings(
      match Find(fields, "timeout") case Some(Number(literal)) => ParseInt(literal) case _ => None,
      ReadText(fields, "database"),
      ReadText(fields, "schema"),
      ReadText(fields, "warehouse"),
      ReadText(fields, "role"),
      match Find(fields, "parameters") case Some(Object(parameters)) => Some(parameters) case _ => None)
  }

  predicate Says(setting: string, read: Option<string>) {
    read == if setting == "" then None else Some(setting)
  }

  /**
   * Each setting is the session's, and there exactly when it is given; the timezone is a parameter, and every other
   * parameter is the caller's.
   */
  ghost predicate HasSettings(session: Session, s: Settings) {
    && (s.timeout.Some? <==> session.timeout.Some?) && (s.timeout.Some? ==> s.timeout.value == session.timeout.value)
    && Says(session.database, s.database) && Says(session.schema, s.schema)
    && Says(session.warehouse, s.warehouse) && Says(session.role, s.role)
    && (s.parameters.None? <==> session.parameters == [] && session.timezone == "")
    && (s.parameters.Some? ==>
          forall key {:trigger Find(s.parameters.value, key)} ::
            Find(s.parameters.value, key)
            == if key == "TIMEZONE" && session.timezone != "" then Some(Text(session.timezone))
               else Find(session.parameters, key))
  }

  lemma {:induction false} FindPut(fields: seq<Field>, key: string, value: Json, k: string)
    ensures Put(fields, key, value) != []
    ensures Find(Put(fields, key, value), k) == if k == key then Some(value) else Find(fields, k)
  {
    if fields != [] && fields[0].key != key {
      FindPut(fields[1..], key, value, k);
      FindIn(fields[0], Put(fields[1..], key, value), k);
    } else if fields != [] {
      FindIn(Field(key, value), fields[1..], k);
    }
  }

  lemma FindIn(first: Field, rest: seq<Field>, k: string)
    ensures Find([first] + rest, k) == if first.key == k then Some(first.value) else Find(rest, k)
  {
    assert ([first] + rest)[1..] == rest;
  }

  lemma {:induction false} FindConcat(a: seq<Field>, b: seq<Field>, k: string)
    ensures Find(a + b, k) == Else(Find(a, k), Find(b, k))
  {
    if a == [] {
      assert a + b == b;
    } else {
      FindConcat(a[1..], b, k);
      FindIn(a[0], a[1..] + b, k);
      assert a + b == [a[0]] + (a[1..] + b);
    }
  }

  /** The context has its settings under these keys, and nothing else. */
  lemma FindContext(session: Session, k: string)
    ensures
      Find(ContextFields(session), k)
      == if k == "timeout" && session.timeout.Some? then Some(Number(Str(session.timeout.value)))
         else if k == "database" && session.database != "" then Some(Text(session.database))
         else if k == "schema" && session.schema != "" then Some(Text(session.schema))
         else if k == "warehouse" && session.warehouse != "" then Some(Text(session.warehouse))
         else if k == "role" && session.role != "" then Some(Text(session.role))
         else if k == "parameters" && Parameters(session) != [] then Some(Object(Parameters(session)))
         else None
  {
    var a := if session.timeout.Some? then [Field("timeout", Number(Str(session.timeout.value)))] else [];
    var b, c := Given("database", session.database), Given("schema", session.schema);
    var d, e := Given("warehouse", session.warehouse), Given("role", session.role);
    var f := if Parameters(session) == [] then [] else [Field("parameters", Object(Parameters(session)))];
    FindFirst(a, b, c, d, e, f, k);
  }

  function Else(a: Option<Json>, b: Option<Json>): Option<Json> {
    if a.Some? then a else b
  }

  lemma FindFirst(
    a: seq<Field>, b: seq<Field>, c: seq<Field>, d: seq<Field>, e: seq<Field>, f: seq<Field>, k: string)
    ensures Find(a + b + c + d + e + f, k)
         == Else(Else(Else(Else(Else(Find(a, k), Find(b, k)), Find(c, k)), Find(d, k)), Find(e, k)), Find(f, k))
  {
    FindConcat(a + b + c + d + e, f, k);
    FindConcat(a + b + c + d, e, k);
    FindConcat(a + b + c, d, k);
    FindConcat(a + b, c, k);
    FindConcat(a, b, k);
  }

  lemma KeysDiffer()
    ensures "statement" !in {"timeout", "database", "schema", "warehouse", "role", "parameters", "bindings"}
    ensures "bindings" !in {"timeout", "database", "schema", "warehouse", "role", "parameters"}
  {
    assert "statement"[0] == 's' && "warehouse"[0] == 'w' && "bindings"[0] == 'b' && "database"[0] == 'd';
    assert |"statement"| == |"warehouse"| == 9 && |"bindings"| == |"database"| == 8;
    assert |"timeout"| == 7 && |"schema"| == 6 && |"role"| == 4 && |"parameters"| == 10;
  }

  lemma ContextSettings(session: Session)
    ensures HasSettings(session, ReadSettings(ContextFields(session)))
  {
    FindContext(session, "timeout");
    FindContext(session, "database");
    FindContext(session, "schema");
    FindContext(session, "warehouse");
    FindContext(session, "role");
    FindContext(session, "parameters");
    LiteralsDiffer();
    if session.timeout.Some? {
      ParseIntStr(session.timeout.value);
    }
    forall key {:trigger Find(Parameters(session), key)}
      ensures Find(Parameters(session), key)
           == if key == "TIMEZONE" && session.timezone != "" then Some(Text(session.timezone))
              else Find(session.parameters, key)
    {
      FindPut(session.parameters, "TIMEZONE", Text(session.timezone), key);
    }
    FindPut(session.parameters, "TIMEZONE", Text(session.timezone), "");
  }

  lemma LiteralsDiffer()
    ensures "database" != "timeout" && "schema" != "timeout" && "schema" != "database"
    ensures "warehouse" !in {"timeout", "database", "schema"}
    ensures "role" !in {"timeout", "database", "schema", "warehouse"}
    ensures "parameters" !in {"timeout", "database", "schema", "warehouse", "role"}
  {
    assert |"timeout"| == 7 && |"database"| == 8 && |"schema"| == 6;
    assert |"warehouse"| == 9 && |"role"| == 4 && |"parameters"| == 10;
  }

  /** What a payload holds under each key: the statement, the session's settings, and the bindings if there are values. */
  ghost predicate SaysAll(session: Session, sql: string, values: seq<Value>, payload: Json)
    requires AllBindable(values)
  {
    && payload.Object? && Find(payload.fields, "statement") == Some(Text(sql))
    && HasSettings(session, ReadSettings(payload.fields))
    && Find(payload.fields, "bindings") == (if values == [] then None else Some(Object(Bindings(values, 0))))
  }

  lemma FindInPayload(session: Session, sql: string, values: seq<Value>, k: string)
    requires AllBindable(values)
    ensures
      Find(PayloadOf(session, sql, values).fields, k)
      == if k == "statement" then Some(Text(sql))
         else Else(Find(ContextFields(session), k),
                   if k == "bindings" && values != [] then Some(Object(Bindings(values, 0))) else None)
  {
    var statement, context := [Field("statement", Text(sql))], ContextFields(session);
    var last := if values == [] then [] else [Field("bindings", Object(Bindings(values, 0)))];
    FindConcat(statement + context, last, k);
    FindConcat(statement, context, k);
  }

  lemma PayloadSettings(session: Session, sql: string, values: seq<Value>)
    requires AllBindable(values)
    ensures ReadSettings(PayloadOf(session, sql, values).fields) == ReadSettings(ContextFields(session))
  {
    KeysDiffer();
    FindInPayload(session, sql, values, "timeout");
    FindInPayload(session, sql, values, "database");
    FindInPayload(session, sql, values, "schema");
    FindInPayload(session, sql, values, "warehouse");
    FindInPayload(session, sql, values, "role");
    FindInPayload(session, sql, values, "parameters");
  }

  lemma PayloadSaysAll(session: Session, sql: string, values: seq<Value>)
    requires AllBindable(values)
    ensures SaysAll(session, sql, values, PayloadOf(session, sql, values))
  {
    KeysDiffer();
    ContextSettings(session);
    PayloadSettings(session, sql, values);
    FindInPayload(session, sql, values, "statement");
    FindInPayload(session, sql, values, "bindings");
    FindContext(session, "bindings");
  }

  method PutGiven(fields: seq<Field>, key: string, value: string) returns (out: seq<Field>)
    ensures out == fields + Given(key, value)
  {
    out := fields;
    if value != "" {
      out := out + [Field(key, Text(value))];
    }
  }

  method PutParameters(fields: seq<Field>, session: Session) returns (out: seq<Field>)
    ensures out == fields + (if Parameters(session) == [] then [] else [Field("parameters", Object(Parameters(session)))])
  {
    var parameters := session.parameters;
    if session.timezone != "" {
      parameters := Put(parameters, "TIMEZONE", Text(session.timezone));
    }
    out := fields;
    if parameters != [] {
      out := out + [Field("parameters", Object(parameters))];
    }
  }

  /** `_build_payload` fills its dictionary key by key; a value that cannot be bound raises. */
  method BuildPayload(session: Session, sql: string, values: seq<Value>) returns (payload: Option<Json>)
    ensures payload.Some? <==> AllBindable(values)
    ensures payload.Some? ==> payload.value == PayloadOf(session, sql, values) && SaysAll(session, sql, values, payload.value)
  {
    var context := PutContext(session);
    var fields := [Field("statement", Text(sql))] + context;
    if values != [] {
      if !AllBindable(values) {
        return None;
      }
      fields := fields + [Field("bindings", Object(Bindings(values, 0)))];
    }
    PayloadSaysAll(session, sql, values);
    return Some(Object(fields));
  }

  /** Everything but the statement and the bindings, key by key. */
  method PutContext(session: Session) returns (context: seq<Field>)
    ensures context == ContextFields(session)
  {
    context := [];
    if session.timeout.Some? {
      context := [Field("timeout", Number(Str(session.timeout.value)))];
    }
    context := PutGiven(context, "database", session.database);
    context := PutGiven(context, "schema", session.schema);
    context := PutGiven(context, "warehouse", session.warehouse);
    context := PutGiven(context, "role", session.role);
    context := PutParameters(context, session);
  }

  predicate Rectangular(rows: seq<Row>, width: nat) {
    forall i | 0 <= i < |rows| :: |rows[i]| == width && AllBindable(rows[i])
  }

  lemma {:induction false} FlattenShape(rows: seq<Row>, width: nat)
    requires Rectangular(rows, width)
    ensures |Flatten(rows)| == |rows| * width && AllBindable(Flatten(rows))
  {
    if rows != [] {
      FlattenShape(rows[..|rows| - 1], width);
      assert |rows| * width == (|rows| - 1) * width + width;
    }
  }

  datatype ConfigError = NoColumns | BadName(error: NameError) | RaggedRow | BadLimit | TooManyRows

  /** `_insert_statement`: one INSERT for all rows, or nothing for no rows. */
  method InsertStatement(table: string, columns: seq<string>, rows: seq<Row>)
    returns (r: Result<Option<(string, seq<Value>)>, ConfigError>)
    ensures r.Ok? && r.value.Some? ==>
      && (forall row | row in rows :: |row| == |columns|)
      && ReadInsert(r.value.value.0) == Some(Insert(Split(table), columns, |rows|))
      && r.value.value.1 == Flatten(rows)
    ensures r.Ok? <==>
      columns != [] && (rows == [] || ((forall row | row in rows :: |row| == |columns|) && InsertPrefix(table, columns).Ok?))
    ensures r == Ok(None) <==> columns != [] && rows == []
    ensures r == Err(NoColumns) <==> columns == []
    ensures r == Err(RaggedRow) <==> columns != [] && exists row :: row in rows && |row| != |columns|
    ensures r.Err? && r.error !in {NoColumns, RaggedRow} ==>
      InsertPrefix(table, columns).Err? && r.error == BadName(InsertPrefix(table, columns).error)
  {
    if columns == [] {
      return Err(NoColumns);
    }
    if rows == [] {
      return Ok(None);
    }
    var width := |columns|;
    var flat := [];
    for i := 0 to |rows|
      invariant forall row | row in rows[..i] :: |row| == width
      invariant flat == Flatten(rows[..i])
    {
      if |rows[i]| != width {
        return Err(RaggedRow);
      }
      flat := flat + rows[i];
      assert rows[..i + 1][..i] == rows[..i];
    }
    assert rows[..|rows|] == rows;
    var prefix := InsertPrefix(table, columns);
    if prefix.Err? {
      return Err(BadName(prefix.error));
    }
    ReadInsertText(table, columns, |rows|);
    return Ok(Some((prefix.value + Repeat(Placeholder(width), |rows|), flat)));
  }

  // ---------------------------------------------------------------- the server's reading

  /** Where an INSERT puts its rows: under which session settings, in which table, under which columns. */
  datatype Site = Site(settings: Settings, target: seq<string>, columns: seq<string>)

  /** Rows of an INSERT as a server understands its request bytes. */
  datatype Reading = Reading(site: Site, rows: seq<Row>)

  function ReadBinding(j: Json): Option<Value> {
    if !j.Object? then None else
      match (Find(j.fields, "type"), Find(j.fields, "value"))
      case (Some(Text(tag)), Some(Null)) => Some(Bindable(tag, None))
      case (Some(Text(tag)), Some(Text(text))) => Some(Bindable(tag, Some(text)))
      case _ => None
  }

  /** The values bound at positions `from + 1 .. from + n`. */
  function ReadValues(fields: seq<Field>, from: nat, n: nat): (r: Option<seq<Value>>)
    ensures r.Some? ==> |r.value| == n
    decreases n
  {
    if n == 0 then Some([])
    else match Find(fields, Str(from + 1))
      case None => None
      case Some(j) =>
        match (ReadBinding(j), ReadValues(fields, from + 1, n - 1))
        case (Some(v), Some(rest)) => Some([v] + rest)
        case _ => None
  }

  function Chunk(values: seq<Value>, width: nat, k: nat): seq<Row>
    requires |values| == k * width
    decreases k
  {
    if k == 0 then [] else
      assert |values| == (k - 1) * width + width;
      Chunk(values[..|values| - width], width, k - 1) + [values[|values| - width..]]
  }

  function ReadRows(insert: Insert, bindings: seq<Field>): Option<seq<Row>> {
    var n := insert.rows * |insert.columns|;
    if |bindings| != n then None else
      match ReadValues(bindings, 0, n)
      case None => None
      case Some(values) =>
        Some(Chunk(values, |insert.columns|, insert.rows))
  }

  function ReadFieldsAsInsert(fields: seq<Field>): Option<Reading> {
    match (Find(fields, "statement"), Find(fields, "bindings"))
    case (Some(Text(sql)), Some(Object(bindings))) =>
      (match ReadInsert(sql)
       case None => None
       case Some(insert) =>
         match ReadRows(insert, bindings)
         case None => None
         case Some(rows) => Some(Reading(Site(ReadSettings(fields), insert.target, insert.columns), rows)))
    case _ => None
  }

  /** What a server executes on receiving `content`; `None` when it is no INSERT it can bind. */
  function Interpret(content: seq<Utf8.byte>): Option<Reading> {
    match Utf8.Decode(content)
    case None => None
    case Some(text) =>
      match Read(text)
      case Some((Object(fields), rest)) => if rest == "" then ReadFieldsAsInsert(fields) else None
      case _ => None
  }

  lemma ReadBindJson(v: Value)
    requires v.Bindable?
    ensures ReadBinding(BindJson(v)) == Some(v)
  {
    var fields := BindJson(v).fields;
    assert fields[1..][0] == fields[1];
    assert |"type"| != |"value"|;
    assert Find(fields, "type") == Some(Text(v.tag));
    assert Find(fields, "value") == Find(fields[1..], "value") == Some(fields[1].value);
  }

  /** The value at index `i` of those bound from position `from` on is found under its position's key. */
  lemma {:induction false} FindBinding(values: seq<Value>, from: nat, i: nat, position: nat)
    requires AllBindable(values) && i < |values| && position == from + i + 1
    ensures Find(Bindings(values, from), Str(position)) == Some(BindJson(values[i]))
  {
    if i > 0 {
      FindBinding(values[1..], from + 1, i - 1, position);
      FindBindingLater(values, from, position);
    }
  }

  lemma FindBindingLater(values: seq<Value>, from: nat, position: nat)
    requires AllBindable(values) && values != [] && position > from + 1
    ensures Find(Bindings(values, from), Str(position)) == Find(Bindings(values[1..], from + 1), Str(position))
  {
    if Str(from + 1) == Str(position) {
      StrInjective(from + 1, position);
    }
    FindAfter(Field(Str(from + 1), BindJson(values[0])), Bindings(values[1..], from + 1), Str(position));
  }

  lemma FindAfter(first: Field, rest: seq<Field>, key: string)
    requires first.key != key
    ensures Find([first] + rest, key) == Find(rest, key)
  {
    assert ([first] + rest)[1..] == rest;
  }

  lemma ReadBindingsStep(values: seq<Value>, fields: seq<Field>, k: nat)
    requires AllBindable(values) && k < |values| && fields == Bindings(values, 0)
    requires ReadValues(fields, k + 1, |values| - (k + 1)) == Some(values[k + 1..])
    ensures ReadValues(fields, k, |values| - k) == Some(values[k..])
  {
    var v, rest := values[k], values[k + 1..];
    assert Find(fields, Str(k + 1)) == Some(BindJson(v)) by {
      FindBinding(values, 0, k, k + 1);
    }
    ReadBindJson(v);
    ReadValuesCons(fields, k, |values| - k, v, rest);
    assert values[k..] == [v] + rest;
  }

  lemma {:induction false} ReadBindings(values: seq<Value>, k: nat)
    requires AllBindable(values) && k <= |values|
    ensures ReadValues(Bindings(values, 0), k, |values| - k) == Some(values[k..])
    decreases |values| - k
  {
    if k < |values| {
      ReadBindings(values, k + 1);
      ReadBindingsStep(values, Bindings(values, 0), k);
    } else {
      assert values[k..] == [];
    }
  }

  lemma ReadValuesCons(fields: seq<Field>, from: nat, n: nat, v: Value, rest: seq<Value>)
    requires v.Bindable? && n > 0
    requires Find(fields, Str(from + 1)) == Some(BindJson(v)) && ReadBinding(BindJson(v)) == Some(v)
    requires ReadValues(fields, from + 1, n - 1) == Some(rest)
    ensures ReadValues(fields, from, n) == Some([v] + rest)
  {
  }

  lemma {:induction false} ChunkFlatten(rows: seq<Row>, width: nat)
    requires Rectangular(rows, width)
    ensures |Flatten(rows)| == |rows| * width && Chunk(Flatten(rows), width, |rows|) == rows
  {
    FlattenShape(rows, width);
    if rows != [] {
      var init, last := rows[..|rows| - 1], rows[|rows| - 1];
      ChunkFlatten(init, width);
      var flat := Flatten(rows);
      assert flat[..|flat| - width] == Flatten(init) && flat[|flat| - width..] == last;
    }
  }

  /**
   * The bytes of a request determine its effect: whatever session, names and rows it was built from,
   * a server reads back the session's settings, the table, the columns and the very rows, in order.
   */
  lemma InterpretPayload(session: Session, table: string, columns: seq<string>, rows: seq<Row>)
    requires Sendable(session) && columns != [] && rows != [] && Rectangular(rows, |columns|)
    requires InsertPrefix(table, columns).Ok?
    ensures AllBindable(Flatten(rows))
    ensures
      var sql := InsertPrefix(table, columns).value + Repeat(Placeholder(|columns|), |rows|);
      Interpret(Utf8.Encode(Write(PayloadOf(session, sql, Flatten(rows)))))
      == Some(Reading(Site(ReadSettings(ContextFields(session)), Split(table), columns), rows))
    ensures HasSettings(session, ReadSettings(ContextFields(session)))
  {
    var sql := InsertPrefix(table, columns).value + Repeat(Placeholder(|columns|), |rows|);
    var insert := Insert(Split(table), columns, |rows|);
    ReadInsertText(table, columns, |rows|);
    FlattenNonEmpty(rows, |columns|);
    PayloadSaysAll(session, sql, Flatten(rows));
    PayloadSettings(session, sql, Flatten(rows));
    ContextSettings(session);
    InterpretObject(PayloadOf(session, sql, Flatten(rows)), sql, insert, rows);
  }

  lemma FlattenNonEmpty(rows: seq<Row>, width: nat)
    requires rows != [] && width > 0 && Rectangular(rows, width)
    ensures AllBindable(Flatten(rows)) && Flatten(rows) != []
  {
    FlattenShape(rows, width);
    assert |rows| * width == (|rows| - 1) * width + width;
  }

  lemma InterpretObject(payload: Json, sql: string, insert: Insert, rows: seq<Row>)
    requires Serializable(payload) && payload.Object?
    requires Rectangular(rows, |insert.columns|) && insert.rows == |rows| && AllBindable(Flatten(rows))
    requires Find(payload.fields, "statement") == Some(Text(sql)) && ReadInsert(sql) == Some(insert)
    requires Find(payload.fields, "bindings") == Some(Object(Bindings(Flatten(rows), 0)))
    ensures Interpret(Utf8.Encode(Write(payload)))
         == Some(Reading(Site(ReadSettings(payload.fields), insert.target, insert.columns), rows))
  {
    InterpretText(payload);
    ReadFieldsSteps(payload.fields, sql, insert, Bindings(Flatten(rows), 0));
    ReadRowsOf(insert, rows);
  }

  lemma ReadFieldsSteps(fields: seq<Field>, sql: string, insert: Insert, bindings: seq<Field>)
    requires Find(fields, "statement") == Some(Text(sql)) && ReadInsert(sql) == Some(insert)
    requires Find(fields, "bindings") == Some(Object(bindings))
    ensures
      ReadFieldsAsInsert(fields)
      == match ReadRows(insert, bindings)
         case None => None
         case Some(rows) => Some(Reading(Site(ReadSettings(fields), insert.target, insert.columns), rows))
  {
  }

  lemma ReadRowsOf(insert: Insert, rows: seq<Row>)
    requires Rectangular(rows, |insert.columns|) && insert.rows == |rows|
    requires AllBindable(Flatten(rows))
    ensures ReadRows(insert, Bindings(Flatten(rows), 0)) == Some(rows)
  {
    var values := Flatten(rows);
    ChunkFlatten(rows, |insert.columns|);
    ReadAllBindings(values);
  }

  lemma ReadAllBindings(values: seq<Value>)
    requires AllBindable(values)
    ensures ReadValues(Bindings(values, 0), 0, |values|) == Some(values)
  {
    ReadBindings(values, 0);
    assert values[0..] == values;
  }

  lemma InterpretText(payload: Json)
    requires Serializable(payload) && payload.Object?
    ensures Interpret(Utf8.Encode(Write(payload))) == ReadFieldsAsInsert(payload.fields)
  {
    Utf8.DecodeEncode(Write(payload));
    ReadWrite(payload, "");
    assert Write(payload) + "" == Write(payload);
  }
}
