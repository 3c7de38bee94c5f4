/**
 * The batch body in two forms: `Content` serialises the whole payload, `Splice` joins byte fragments.
 * They are equal, and the size of one follows from the size of a shorter one by arithmetic.
 */
module Body {
  import opened Wrappers
  import opened Digits
  import opened Json
  import opened Escaping
  import opened Payload
  import Utf8

  type bytes = seq<Utf8.byte>

  /** The settings of one `insert_batches` call. */
  datatype Plan = Plan(session: Session, prefix: string, width: nat, maxRows: nat, maxBytes: nat)

  predicate Usable(plan: Plan) {
    plan.width > 0 && plan.maxRows > 0 && plan.maxBytes > 0
  }

  predicate Batchable(plan: Plan, rows: seq<Row>) {
    Usable(plan) && Sendable(plan.session) && rows != [] && Rectangular(rows, plan.width)
  }

  function Sql(plan: Plan, k: nat): string {
    plan.prefix + Repeat(Placeholder(plan.width), k)
  }

  /** The reference body: compact JSON of the payload, in UTF-8. */
  function Content(plan: Plan, rows: seq<Row>): bytes
    requires Batchable(plan, rows)
  {
    FlattenShape(rows, plan.width);
    Utf8.Encode(Write(PayloadOf(plan.session, Sql(plan, |rows|), Flatten(rows))))
  }

  // ---------------------------------------------------------------- the spliced form

  /** `_encode` of one value's binding. */
  function Encoded(v: Value): bytes {
    if v.Bindable? then Utf8.Encode(Write(BindJson(v))) else []
  }

  /** The sizes below hold for any encoding of values, `Encoded` in particular. */
  type Encoding = Value -> bytes

  function EncodeRow(enc: Encoding, row: Row): (encoded: seq<bytes>)
    ensures |encoded| == |row|
  {
    if row == [] then [] else [enc(row[0])] + EncodeRow(enc, row[1..])
  }

  /** `_fragment`: the bindings of one row whose first key is `offset + 1`. */
  function Fragment(encoded: seq<bytes>, offset: nat): bytes {
    if encoded == [] then []
    else
      var first := Utf8.Encode(Quote(Str(offset + 1))) + Utf8.Encode(":") + encoded[0];
      if |encoded| == 1 then first
      else first + Utf8.Encode(",") + Fragment(encoded[1..], offset + 1)
  }

  /** `b",".join(fragments)`. */
  function JoinBytes(fragments: seq<bytes>): bytes {
    if fragments == [] then []
    else if |fragments| == 1 then fragments[0]
    else JoinBytes(fragments[..|fragments| - 1]) + Utf8.Encode(",") + fragments[|fragments| - 1]
  }

  /** The number of values in `k` rows. */
  function Offset(k: nat, width: nat): nat {
    k * width
  }

  lemma OffsetGrows(a: nat, b: nat, width: nat)
    requires a <= b
    ensures Offset(a, width) <= Offset(b, width)
  {
    assert b * width == a * width + (b - a) * width;
  }

  function Fragments(enc: Encoding, rows: seq<Row>, width: nat): (fragments: seq<bytes>)
    ensures |fragments| == |rows|
  {
    if rows == [] then []
    else
      var n := |rows| - 1;
      Fragments(enc, rows[..n], width) + [Fragment(EncodeRow(enc, rows[n]), Offset(n, width))]
  }

  /** `_encode(context)[1:-1]`, with a leading comma unless it is empty. */
  function ContextBytes(context: seq<Field>): bytes
    requires AllSerializable(context)
  {
    var whole := Utf8.Encode(Write(Object(context)));
    Utf8.EncodeConcat("{" + WriteFields(context), "}");
    Utf8.EncodeConcat("{", WriteFields(context));
    var inner := whole[1..|whole| - 1];
    if inner == [] then [] else Utf8.Encode(",") + inner
  }

  /** `_body`. */
  function Splice(sql: string, context: bytes, bindings: bytes): bytes {
    Utf8.Encode("{\"statement\":") + Utf8.Encode(Quote(sql)) + context
    + Utf8.Encode(",\"bindings\":{") + bindings + Utf8.Encode("}}")
  }

  lemma ContextBytesOf(context: seq<Field>)
    requires AllSerializable(context)
    ensures ContextBytes(context) == Utf8.Encode(if context == [] then "" else "," + WriteFields(context))
  {
    var w := WriteFields(context);
    Utf8.EncodeConcat("{" + w, "}");
    Utf8.EncodeConcat("{", w);
    Utf8.EncodeAscii("{");
    Utf8.EncodeAscii("}");
    var whole := Utf8.Encode(Write(Object(context)));
    assert whole[1..|whole| - 1] == Utf8.Encode(w);
    Utf8.EncodeConcat(",", w);
  }

  /** The payload's text, cut where the client cuts its bytes. */
  lemma PayloadText(session: Session, sql: string, values: seq<Value>)
    requires Sendable(session) && AllBindable(values) && values != []
    ensures
      var context := ContextFields(session);
      Write(PayloadOf(session, sql, values))
      == "{\"statement\":" + Quote(sql) + (if context == [] then "" else "," + WriteFields(context))
         + ",\"bindings\":{" + WriteFields(Bindings(values, 0)) + "}}"
  {
    var context := ContextFields(session);
    var s, b := Field("statement", Text(sql)), Field("bindings", Object(Bindings(values, 0)));
    PlainKeys();
    PlainFieldText(s.key, s.value);
    PlainFieldText(b.key, b.value);
    FieldsText(s, context, b);
    JoinPayload(Quote(sql), if context == [] then "" else "," + WriteFields(context), WriteFields(Bindings(values, 0)));
    assert PayloadOf(session, sql, values).fields == [s] + context + [b];
  }

  lemma PlainKeys()
    ensures Plain("statement") && Plain("bindings")
  {
  }

  lemma PlainFieldText(key: string, value: Json)
    requires Plain(key) && Serializable(value)
    ensures WriteField(Field(key, value)) == "\"" + key + "\":" + Write(value)
  {
    EscapePlain(key);
    assert Quote(key) + ":" == "\"" + key + "\":";
  }

  lemma JoinPayload(quoted: string, context: string, bindings: string)
    ensures "{" + ("\"" + "statement" + "\":" + quoted + context + "," + ("\"" + "bindings" + "\":" + ("{" + bindings + "}"))) + "}"
         == "{\"statement\":" + quoted + context + ",\"bindings\":{" + bindings + "}}"
  {
    assert "{" + "\"" + "statement" + "\":" == "{\"statement\":";
    assert "," + "\"" + "bindings" + "\":" + "{" == ",\"bindings\":{";
    assert "}" + "}" == "}}";
  }

  lemma FrontText(s: Field, context: seq<Field>)
    requires Serializable(s.value) && AllSerializable(context)
    ensures AllSerializable([s] + context)
    ensures WriteFields([s] + context) == WriteField(s) + (if context == [] then "" else "," + WriteFields(context))
  {
    if context == [] {
      assert [s] + context == [s];
    } else {
      WriteFieldsCons(s, context);
      Regroup(WriteField(s), ",", WriteFields(context));
    }
  }

  lemma FieldsText(s: Field, context: seq<Field>, b: Field)
    requires Serializable(s.value) && AllSerializable(context) && Serializable(b.value)
    ensures AllSerializable([s] + context + [b])
    ensures WriteFields([s] + context + [b])
         == WriteField(s) + (if context == [] then "" else "," + WriteFields(context)) + "," + WriteField(b)
  {
    FrontText(s, context);
    AppendField([s] + context, b);
  }

  lemma AppendField(fields: seq<Field>, b: Field)
    requires AllSerializable(fields) && Serializable(b.value) && fields != []
    ensures AllSerializable(fields + [b])
    ensures WriteFields(fields + [b]) == WriteFields(fields) + "," + WriteField(b)
  {
    WriteFieldsConcat(fields, [b]);
  }

  lemma {:induction false} FragmentText(row: Row, offset: nat)
    requires AllBindable(row)
    ensures Fragment(EncodeRow(Encoded, row), offset) == Utf8.Encode(WriteFields(Bindings(row, offset)))
  {
    if row != [] {
      var f := Field(Str(offset + 1), BindJson(row[0]));
      var key, value := Quote(f.key), Write(f.value);
      Utf8.EncodeConcat(key + ":", value);
      Utf8.EncodeConcat(key, ":");
      assert Bindings(row, offset)[0] == f;
      if |row| > 1 {
        var rest := Bindings(row[1..], offset + 1);
        FragmentText(row[1..], offset + 1);
        WriteFieldsCons(f, rest);
        Utf8.EncodeConcat(WriteField(f) + ",", WriteFields(rest));
        Utf8.EncodeConcat(WriteField(f), ",");
      }
    }
  }

  lemma Regroup<T>(a: seq<T>, b: seq<T>, c: seq<T>)
    ensures a + b + c == a + (b + c)
  {
  }

  lemma BindingsCons(v: Value, rest: seq<Value>, from: nat)
    requires v.Bindable? && AllBindable(rest)
    ensures AllBindable([v] + rest)
    ensures Bindings([v] + rest, from) == [Field(Str(from + 1), BindJson(v))] + Bindings(rest, from + 1)
  {
    assert ([v] + rest)[1..] == rest;
  }

  /** The bindings of two runs of values, the second keyed from `m` on. */
  lemma {:induction false} BindingsConcat(a: seq<Value>, b: seq<Value>, from: nat, m: nat)
    requires AllBindable(a) && AllBindable(b) && m == from + |a|
    ensures AllBindable(a + b) && Bindings(a + b, from) == Bindings(a, from) + Bindings(b, m)
  {
    if a == [] {
      assert a + b == b;
    } else {
      var v, tail := a[0], a[1..];
      assert a == [v] + tail && a + b == [v] + (tail + b);
      BindingsConcat(tail, b, from + 1, m);
      BindingsCons(v, tail, from);
      BindingsCons(v, tail + b, from);
      Regroup([Field(Str(from + 1), BindJson(v))], Bindings(tail, from + 1), Bindings(b, m));
    }
  }

  lemma {:induction false} FragmentsText(rows: seq<Row>, width: nat)
    requires Rectangular(rows, width) && width > 0
    ensures AllBindable(Flatten(rows))
    ensures JoinBytes(Fragments(Encoded, rows, width)) == Utf8.Encode(WriteFields(Bindings(Flatten(rows), 0)))
  {
    FlattenShape(rows, width);
    if rows != [] {
      var n := |rows| - 1;
      if n == 0 {
        FragmentText(rows[0], Offset(0, width));
        assert Flatten(rows) == rows[0];
      } else {
        FragmentsText(rows[..n], width);
        FlattenNonEmpty(rows[..n], width);
        FlattenShape(rows[..n], width);
        FragmentsTextStep(Flatten(rows[..n]), rows[n], n, width);
        assert Fragments(Encoded, rows, width)[..n] == Fragments(Encoded, rows[..n], width);
      }
    }
  }

  lemma FragmentsTextStep(flat: seq<Value>, last: Row, n: nat, width: nat)
    requires flat != [] && last != [] && AllBindable(flat) && AllBindable(last) && |flat| == Offset(n, width)
    ensures AllBindable(flat + last)
    ensures Utf8.Encode(WriteFields(Bindings(flat, 0))) + Utf8.Encode(",") + Fragment(EncodeRow(Encoded, last), Offset(n, width))
         == Utf8.Encode(WriteFields(Bindings(flat + last, 0)))
  {
    FragmentText(last, Offset(n, width));
    BindingsConcat(flat, last, 0, |flat|);
    JoinFieldBytes(Bindings(flat, 0), Bindings(last, |flat|));
  }

  lemma JoinFieldBytes(a: seq<Field>, b: seq<Field>)
    requires AllSerializable(a) && AllSerializable(b) && a != [] && b != []
    ensures AllSerializable(a + b)
    ensures Utf8.Encode(WriteFields(a + b))
         == Utf8.Encode(WriteFields(a)) + Utf8.Encode(",") + Utf8.Encode(WriteFields(b))
  {
    WriteFieldsConcat(a, b);
    Utf8.EncodeConcat(WriteFields(a) + ",", WriteFields(b));
    Utf8.EncodeConcat(WriteFields(a), ",");
  }

  /** Encoding a text joined from six pieces. */
  lemma EncodeSix(a: string, b: string, c: string, d: string, e: string, f: string)
    ensures Utf8.Encode(a + b + c + d + e + f)
         == Utf8.Encode(a) + Utf8.Encode(b) + Utf8.Encode(c) + Utf8.Encode(d) + Utf8.Encode(e) + Utf8.Encode(f)
  {
    Utf8.EncodeConcat(a + b + c + d + e, f);
    Utf8.EncodeConcat(a + b + c + d, e);
    Utf8.EncodeConcat(a + b + c, d);
    Utf8.EncodeConcat(a + b, c);
    Utf8.EncodeConcat(a, b);
  }

  /** The spliced body is, byte for byte, the serialised payload: with or without context, for any row count. */
  lemma SpliceIsContent(plan: Plan, rows: seq<Row>)
    requires Batchable(plan, rows)
    ensures Splice(Sql(plan, |rows|), ContextBytes(ContextFields(plan.session)), JoinBytes(Fragments(Encoded, rows, plan.width)))
         == Content(plan, rows)
  {
    var context := ContextFields(plan.session);
    var values := Flatten(rows);
    FlattenNonEmpty(rows, plan.width);
    FragmentsText(rows, plan.width);
    ContextBytesOf(context);
    PayloadText(plan.session, Sql(plan, |rows|), values);
    EncodeSix("{\"statement\":", Quote(Sql(plan, |rows|)), if context == [] then "" else "," + WriteFields(context),
              ",\"bindings\":{", WriteFields(Bindings(values, 0)), "}}");
  }

  // ---------------------------------------------------------------- sizes

  predicate PlainAscii(s: string) {
    Plain(s) && Utf8.Ascii(s)
  }

  lemma {:induction false} RepeatPlain(item: string, k: nat)
    requires PlainAscii(item)
    ensures PlainAscii(Repeat(item, k))
  {
    if k > 1 {
      RepeatPlain(item, k - 1);
    }
  }

  lemma QuotedSqlSize(plan: Plan, k: nat)
    ensures |Utf8.Encode(Quote(Sql(plan, k)))|
         == 2 + |Utf8.Encode(Escape(plan.prefix))| + |Repeat(Placeholder(plan.width), k)|
  {
    var tuples := Repeat(Placeholder(plan.width), k);
    RepeatPlain("?", plan.width);
    RepeatPlain(Placeholder(plan.width), k);
    EscapeConcat(plan.prefix, tuples);
    EscapePlain(tuples);
    Utf8.EncodeAscii(tuples);
    var e := Escape(plan.prefix);
    assert Quote(Sql(plan, k)) == "\"" + (e + tuples) + "\"";
    Utf8.EncodeConcat("\"" + (e + tuples), "\"");
    Utf8.EncodeConcat("\"", e + tuples);
    Utf8.EncodeConcat(e, tuples);
    Utf8.EncodeAscii("\"");
  }

  /** The size of a one-row body without its bindings: `single_overhead`. */
  function SingleOverhead(plan: Plan): nat
    requires Sendable(plan.session)
  {
    |Splice(plan.prefix + Placeholder(plan.width), ContextBytes(ContextFields(plan.session)), [])|
  }

  /** What row `k` adds to a body that already has one: `", "`, its placeholder, a comma and its fragment. */
  function RowCost(enc: Encoding, width: nat, k: nat, row: Row): nat
  {
    2 + |Placeholder(width)| + 1 + |Fragment(EncodeRow(enc, row), Offset(k, width))|
  }

  /** The planner's running `size`. */
  function RunningSize(enc: Encoding, overhead: nat, width: nat, rows: seq<Row>): nat
    requires rows != []
  {
    if |rows| == 1 then overhead + |Fragment(EncodeRow(enc, rows[0]), 0)|
    else RunningSize(enc, overhead, width, rows[..|rows| - 1]) + RowCost(enc, width, |rows| - 1, rows[|rows| - 1])
  }

  lemma {:induction false} RunningSizeSum(enc: Encoding, overhead: nat, width: nat, rows: seq<Row>)
    requires rows != []
    ensures RunningSize(enc, overhead, width, rows) + |Placeholder(width)|
         == overhead + |JoinBytes(Fragments(enc, rows, width))| + |Repeat(Placeholder(width), |rows|)|
  {
    var n := |rows| - 1;
    var fragments := Fragments(enc, rows, width);
    if n == 0 {
      assert fragments == [Fragment(EncodeRow(enc, rows[0]), 0)];
    } else {
      RunningSizeSum(enc, overhead, width, rows[..n]);
      RepeatLength(Placeholder(width), n);
      Utf8.EncodeAscii(",");
      assert fragments[..n] == Fragments(enc, rows[..n], width);
    }
  }

  lemma SpliceSize(sql: string, context: bytes, bindings: bytes)
    ensures |Splice(sql, context, bindings)| + |Utf8.Encode(Quote(""))|
         == |Splice("", context, [])| + |Utf8.Encode(Quote(sql))| + |bindings|
  {
  }

  /** The running size is, at every row count, the length of the body that would be sent. */
  lemma ContentSize(plan: Plan, rows: seq<Row>)
    requires Batchable(plan, rows)
    ensures |Content(plan, rows)| == RunningSize(Encoded, SingleOverhead(plan), plan.width, rows)
  {
    var context := ContextBytes(ContextFields(plan.session));
    SpliceIsContent(plan, rows);
    RunningSizeSum(Encoded, SingleOverhead(plan), plan.width, rows);
    SpliceSize(Sql(plan, |rows|), context, JoinBytes(Fragments(Encoded, rows, plan.width)));
    SpliceSize(Sql(plan, 1), context, []);
    QuotedSqlSize(plan, |rows|);
    QuotedSqlSize(plan, 1);
  }

  lemma {:induction false} RepeatLength(item: string, k: nat)
    requires k > 0
    ensures |Repeat(item, k + 1)| == |Repeat(item, k)| + 2 + |item|
  {
    if k > 1 {
      RepeatLength(item, k - 1);
    }
  }

  lemma FragmentSize(encoded: seq<bytes>, offset: nat, key: nat)
    requires encoded != [] && key == offset + 1
    ensures |Fragment(encoded, offset)|
         == |Str(key)| + 3 + |encoded[0]| + (if |encoded| == 1 then 0 else 1 + |Fragment(encoded[1..], key)|)
  {
    KeySize(key);
    Utf8.EncodeAscii(":");
    Utf8.EncodeAscii(",");
  }

  lemma {:induction false} FragmentGrows(encoded: seq<bytes>, a: nat, b: nat)
    requires a <= b
    ensures |Fragment(encoded, a)| <= |Fragment(encoded, b)|
  {
    if encoded != [] {
      FragmentGrows(encoded[1..], a + 1, b + 1);
      FragmentGrowsMore(encoded, a, b);
    }
  }

  lemma FragmentGrowsMore(encoded: seq<bytes>, a: nat, b: nat)
    requires a <= b && encoded != [] && |Fragment(encoded[1..], a + 1)| <= |Fragment(encoded[1..], b + 1)|
    ensures |Fragment(encoded, a)| <= |Fragment(encoded, b)|
  {
    StrLengthMonotone(a + 1, b + 1);
    FragmentSize(encoded, a, a + 1);
    FragmentSize(encoded, b, b + 1);
  }

  lemma KeySize(n: nat)
    ensures |Utf8.Encode(Quote(Str(n)))| == |Str(n)| + 2
  {
    EscapePlain(Str(n));
    Utf8.EncodeAscii(Quote(Str(n)));
  }

  lemma RowCostGrows(enc: Encoding, width: nat, k: nat, row: Row)
    ensures RowCost(enc, width, k, row) <= RowCost(enc, width, k + 1, row)
    ensures |Fragment(EncodeRow(enc, row), 0)| <= RowCost(enc, width, k, row)
  {
    OffsetGrows(k, k + 1, width);
    FragmentGrows(EncodeRow(enc, row), 0, Offset(k, width));
    FragmentGrows(EncodeRow(enc, row), Offset(k, width), Offset(k + 1, width));
  }

  lemma RunningSizeSnoc(enc: Encoding, overhead: nat, width: nat, init: seq<Row>, last: Row)
    ensures RunningSize(enc, overhead, width, init + [last])
         == if init == [] then overhead + |Fragment(EncodeRow(enc, last), 0)|
            else RunningSize(enc, overhead, width, init) + RowCost(enc, width, |init|, last)
  {
    var rows := init + [last];
    assert rows[..|rows| - 1] == init && rows[|rows| - 1] == last;
  }

  /** Re-encoding a batch without its first row only shortens keys. */
  lemma {:induction false} SizeDropFirst(enc: Encoding, overhead: nat, width: nat, rows: seq<Row>)
    requires |rows| > 1
    ensures RunningSize(enc, overhead, width, rows[1..]) <= RunningSize(enc, overhead, width, rows)
  {
    var n := |rows| - 1;
    var init, last := rows[..n], rows[n];
    assert rows == init + [last] && rows[1..] == init[1..] + [last];
    RowCostGrows(enc, width, n - 1, last);
    RowCostGrows(enc, width, n, last);
    RunningSizeSnoc(enc, overhead, width, init, last);
    RunningSizeSnoc(enc, overhead, width, init[1..], last);
    if n > 1 {
      SizeDropFirst(enc, overhead, width, init);
    }
  }

  lemma RectangularPart(rows: seq<Row>, width: nat, a: nat, b: nat)
    requires Rectangular(rows, width) && a <= b <= |rows|
    ensures Rectangular(rows[a..b], width)
  {
  }

  lemma {:induction false} SizePrefix(enc: Encoding, overhead: nat, width: nat, rows: seq<Row>, b: nat)
    requires 0 < b <= |rows|
    ensures RunningSize(enc, overhead, width, rows[..b]) <= RunningSize(enc, overhead, width, rows)
    decreases |rows|
  {
    if b == |rows| {
      assert rows[..b] == rows;
    } else {
      var init := rows[..|rows| - 1];
      SizePrefix(enc, overhead, width, init, b);
      assert init[..b] == rows[..b];
    }
  }

  lemma {:induction false} SizeSuffix(enc: Encoding, overhead: nat, width: nat, rows: seq<Row>, a: nat)
    requires a < |rows|
    ensures RunningSize(enc, overhead, width, rows[a..]) <= RunningSize(enc, overhead, width, rows)
    decreases a
  {
    if a == 0 {
      assert rows[a..] == rows;
    } else {
      var tail := rows[1..];
      SizeDropFirst(enc, overhead, width, rows);
      SizeSuffix(enc, overhead, width, tail, a - 1);
      assert tail[a - 1..] == rows[a..];
    }
  }

  lemma SizePart(enc: Encoding, overhead: nat, width: nat, rows: seq<Row>, a: nat, b: nat)
    requires a < b <= |rows|
    ensures RunningSize(enc, overhead, width, rows[a..b]) <= RunningSize(enc, overhead, width, rows)
  {
    SizePrefix(enc, overhead, width, rows, b);
    SizeSuffix(enc, overhead, width, rows[..b], a);
    assert rows[..b][a..] == rows[a..b];
  }

  /** A batch fits when both caps allow it. */
  ghost predicate Feasible(plan: Plan, rows: seq<Row>) {
    Batchable(plan, rows) && |rows| <= plan.maxRows && |Content(plan, rows)| <= plan.maxBytes
  }

  /** Any part of a batch that fits also fits. */
  lemma FeasiblePart(plan: Plan, rows: seq<Row>, a: nat, b: nat)
    requires Feasible(plan, rows) && a < b <= |rows|
    ensures Feasible(plan, rows[a..b])
  {
    RectangularPart(rows, plan.width, a, b);
    SizePart(Encoded, SingleOverhead(plan), plan.width, rows, a, b);
    ContentSize(plan, rows);
    ContentSize(plan, rows[a..b]);
  }
}
