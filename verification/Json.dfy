/**
 * Compact JSON text as `json.dumps(value, ensure_ascii=False, separators=(",", ":"), allow_nan=False)`
 * writes it, and a reader for that text (RFC 8259 sections 4 to 7, no insignificant white space).
 */
module Json {
  import opened Wrappers

  /** A number is carried as its literal. `Unserializable` stands for a value `json.dumps` rejects. */
  datatype Json =
    | Null
    | Bool(b: bool)
    | Number(lit: string)
    | Text(s: string)
    | Object(fields: seq<Field>)
    | Unserializable

  datatype Field = Field(key: string, value: Json)

  predicate NumberChar(c: char) {
    '0' <= c <= '9' || c in "+-.eE"
  }

  predicate NumberLiteral(s: string) {
    s != "" && forall i | 0 <= i < |s| :: NumberChar(s[i])
  }

  predicate Serializable(j: Json) {
    match j
    case Unserializable => false
    case Number(lit) => NumberLiteral(lit)
    case Object(fields) => forall f | f in fields :: Serializable(f.value)
    case _ => true
  }

  predicate AllSerializable(fields: seq<Field>) {
    forall f | f in fields :: Serializable(f.value)
  }

  // ---------------------------------------------------------------- writing

  function HexDigit(d: nat): (c: char)
    requires d < 16
  {
    if d < 10 then ('0' as int + d) as char else ('a' as int + d - 10) as char
  }

  function EscapeChar(c: char): (s: string)
    ensures s != ""
  {
    if c == '"' then "\\\""
    else if c == '\\' then "\\\\"
    else if c == '\n' then "\\n"
    else if c == '\r' then "\\r"
    else if c == '\t' then "\\t"
    else if c as int == 8 then "\\b"
    else if c as int == 12 then "\\f"
    else if c as int < 32 then "\\u00" + [HexDigit(c as int / 16), HexDigit(c as int % 16)]
    else [c]
  }

  function Escape(s: string): string {
    if s == "" then "" else EscapeChar(s[0]) + Escape(s[1..])
  }

  function Quote(s: string): string {
    "\"" + Escape(s) + "\""
  }

  function Write(j: Json): (s: string)
    requires Serializable(j)
    ensures s != ""
    decreases j, 1
  {
    match j
    case Null => "null"
    case Bool(b) => if b then "true" else "false"
    case Number(lit) => lit
    case Text(s) => Quote(s)
    case Object(fields) => "{" + WriteFields(fields) + "}"
  }

  function WriteField(f: Field): string
    requires Serializable(f.value)
    decreases f, 2
  {
    Quote(f.key) + ":" + Write(f.value)
  }

  function WriteFields(fields: seq<Field>): string
    requires AllSerializable(fields)
    decreases fields, 0
  {
    if fields == [] then ""
    else if |fields| == 1 then WriteField(fields[0])
    else WriteField(fields[0]) + "," + WriteFields(fields[1..])
  }

  // ---------------------------------------------------------------- reading

  function HexVal(c: char): Option<nat> {
    if '0' <= c <= '9' then Some(c as int - '0' as int)
    else if 'a' <= c <= 'f' then Some(c as int - 'a' as int + 10)
    else if 'A' <= c <= 'F' then Some(c as int - 'A' as int + 10)
    else None
  }

  function ReadHex(t: string, n: nat): (r: Option<(nat, string)>)
    ensures r.Some? ==> |r.value.1| <= |t|
  {
    if n == 0 then Some((0, t))
    else if t == "" then None
    else match (HexVal(t[0]), ReadHex(t[1..], n - 1))
      case (Some(d), Some((low, rest))) => Some((d * Pow16(n - 1) + low, rest))
      case _ => None
  }

  function Pow16(n: nat): nat {
    if n == 0 then 1 else 16 * Pow16(n - 1)
  }

  /** The character an escape denotes, read after its backslash; `\u` escapes of surrogates are not read. */
  function ReadEscape(t: string): (r: Option<(char, string)>)
    ensures r.Some? ==> |r.value.1| < |t|
  {
    if t == "" then None
    else if t[0] in "\"\\/" then Some((t[0], t[1..]))
    else if t[0] == 'n' then Some(('\n', t[1..]))
    else if t[0] == 'r' then Some(('\r', t[1..]))
    else if t[0] == 't' then Some(('\t', t[1..]))
    else if t[0] == 'b' then Some((8 as char, t[1..]))
    else if t[0] == 'f' then Some((12 as char, t[1..]))
    else if t[0] == 'u' then
      match ReadHex(t[1..], 4)
      case Some((n, rest)) => if n < 0xD800 || 0xE000 <= n < 0x10000 then Some((n as char, rest)) else None
      case None => None
    else None
  }

  /** The rest of a string literal, read after its opening quote. */
  function ReadString(t: string): (r: Option<(string, string)>)
    ensures r.Some? ==> |r.value.1| < |t|
    decreases |t|
  {
    if t == "" || t[0] as int < 32 then None
    else if t[0] == '"' then Some(("", t[1..]))
    else if t[0] == '\\' then
      match ReadEscape(t[1..])
      case None => None
      case Some((c, more)) =>
        match ReadString(more)
        case None => None
        case Some((s, rest)) => Some(([c] + s, rest))
    else
      match ReadString(t[1..])
      case None => None
      case Some((s, rest)) => Some(([t[0]] + s, rest))
  }

  function NumberSpan(t: string): (n: nat)
    ensures n <= |t|
  {
    if t == "" || !NumberChar(t[0]) then 0 else 1 + NumberSpan(t[1..])
  }

  function Read(t: string): (r: Option<(Json, string)>)
    ensures r.Some? ==> |r.value.1| < |t|
    decreases |t|, 1
  {
    if t == "" then None
    else if t[0] == '"' then
      match ReadString(t[1..])
      case None => None
      case Some((s, rest)) => Some((Text(s), rest))
    else if t[0] == '{' then
      if |t| > 1 && t[1] == '}' then Some((Object([]), t[2..]))
      else
        match ReadFields(t[1..])
        case None => None
        case Some((fields, rest)) => Some((Object(fields), rest))
    else if "null" <= t then Some((Null, t[4..]))
    else if "true" <= t then Some((Bool(true), t[4..]))
    else if "false" <= t then Some((Bool(false), t[5..]))
    else
      var n := NumberSpan(t);
      if n == 0 then None else Some((Number(t[..n]), t[n..]))
  }

  function ReadField(t: string): (r: Option<(Field, string)>)
    ensures r.Some? ==> |r.value.1| < |t|
    decreases |t|, 2
  {
    if t == "" || t[0] != '"' then None else
      match ReadString(t[1..])
      case None => None
      case Some((key, more)) =>
        if more == "" || more[0] != ':' then None else
          match Read(more[1..])
          case None => None
          case Some((value, rest)) => Some((Field(key, value), rest))
  }

  /** One or more fields up to and including the closing brace. */
  function ReadFields(t: string): (r: Option<(seq<Field>, string)>)
    ensures r.Some? ==> |r.value.1| < |t|
    decreases |t|, 3
  {
    match ReadField(t)
    case None => None
    case Some((field, more)) =>
      if more == "" then None
      else if more[0] == '}' then Some(([field], more[1..]))
      else if more[0] == ',' then
        match ReadFields(more[1..])
        case None => None
        case Some((fields, rest)) => Some(([field] + fields, rest))
      else None
  }

  // ---------------------------------------------------------------- round trip

  lemma ReadEscapeOf(c: char, rest: string)
    requires |EscapeChar(c)| > 1
    ensures EscapeChar(c)[0] == '\\' && ReadEscape(EscapeChar(c)[1..] + rest) == Some((c, rest))
  {
    var e := EscapeChar(c)[1..];
    assert (e + rest)[0] == e[0];
    if |e| == 1 {
      assert (e + rest)[1..] == rest;
    } else {
      var hi, lo := HexDigit(c as int / 16), HexDigit(c as int % 16);
      assert e == "u00" + [hi, lo];
      var t := e + rest;
      assert t[1..] == "00" + [hi, lo] + rest;
      ReadFourHex(c as int, hi, lo, rest);
    }
  }

  lemma ReadFourHex(n: nat, hi: char, lo: char, rest: string)
    requires n < 32 && hi == HexDigit(n / 16) && lo == HexDigit(n % 16)
    ensures ReadHex("00" + [hi, lo] + rest, 4) == Some((n, rest))
  {
    var t := "00" + [hi, lo] + rest;
    assert t[1..] == "0" + [hi, lo] + rest;
    assert t[1..][1..] == [hi, lo] + rest;
    assert t[1..][1..][1..] == [lo] + rest;
    assert t[1..][1..][1..][1..] == rest;
    assert ReadHex(rest, 0) == Some((0, rest));
    assert ReadHex([lo] + rest, 1) == Some((n % 16, rest));
    assert Pow16(1) == 16;
    assert ReadHex([hi, lo] + rest, 2) == Some((n, rest));
    assert ReadHex(t[1..], 3) == Some((n, rest));
  }

  lemma ReadStringChar(c: char, tail: string, s: string, rest: string)
    requires ReadString(tail) == Some((s, rest))
    ensures ReadString(EscapeChar(c) + tail) == Some(([c] + s, rest))
  {
    var e := EscapeChar(c);
    if |e| == 1 {
      assert (e + tail)[1..] == tail;
    } else {
      ReadEscapeOf(c, tail);
      assert (e + tail)[1..] == e[1..] + tail;
    }
  }

  lemma {:induction false} ReadStringEscape(s: string, rest: string)
    ensures ReadString(Escape(s) + "\"" + rest) == Some((s, rest))
  {
    if s == "" {
      assert Escape(s) + "\"" + rest == "\"" + rest;
      assert ("\"" + rest)[1..] == rest;
    } else {
      ReadStringEscape(s[1..], rest);
      ReadStringChar(s[0], Escape(s[1..]) + "\"" + rest, s[1..], rest);
      Associate(EscapeChar(s[0]), Escape(s[1..]), "\"", rest);
      assert s == [s[0]] + s[1..];
    }
  }

  lemma Associate(a: string, b: string, c: string, d: string)
    ensures a + b + c + d == a + (b + c + d)
  {
  }

  /** What may follow a value so that a number's literal ends where it was written. */
  predicate Ends(rest: string) {
    rest == "" || !NumberChar(rest[0])
  }

  lemma {:induction false} NumberSpanOf(lit: string, rest: string)
    requires forall i | 0 <= i < |lit| :: NumberChar(lit[i])
    requires Ends(rest)
    ensures NumberSpan(lit + rest) == |lit|
  {
    if lit == "" {
      assert lit + rest == rest;
    } else {
      assert (lit + rest)[1..] == lit[1..] + rest;
      NumberSpanOf(lit[1..], rest);
    }
  }

  lemma ReadWriteLiteral(j: Json, rest: string)
    requires j.Null? || j.Bool?
    ensures Read(Write(j) + rest) == Some((j, rest))
  {
    var w := Write(j);
    var t := w + rest;
    assert w <= t && t[|w|..] == rest && t[0] == w[0];
  }

  lemma ReadWriteNumber(lit: string, rest: string)
    requires NumberLiteral(lit) && Ends(rest)
    ensures Read(lit + rest) == Some((Number(lit), rest))
  {
    var t := lit + rest;
    NumberSpanOf(lit, rest);
    assert t[0] == lit[0] && NumberChar(t[0]);
    assert t[..|lit|] == lit && t[|lit|..] == rest;
  }

  lemma ReadObject(t: string, fields: seq<Field>, rest: string)
    requires t != "" && t[0] == '"' && ReadFields(t) == Some((fields, rest))
    ensures Read("{" + t) == Some((Object(fields), rest))
  {
    assert ("{" + t)[1..] == t;
  }

  /** Reading undoes writing, whatever follows: compact text determines its value. */
  lemma {:induction false} ReadWrite(j: Json, rest: string)
    requires Serializable(j) && Ends(rest)
    ensures Read(Write(j) + rest) == Some((j, rest))
    decreases j, 1
  {
    match j
    case Null => ReadWriteLiteral(j, rest);
    case Bool(b) => ReadWriteLiteral(j, rest);
    case Number(lit) => ReadWriteNumber(lit, rest);
    case Text(s) =>
      assert (Write(j) + rest)[1..] == Escape(s) + "\"" + rest;
      ReadStringEscape(s, rest);
    case Object(fields) =>
      if fields == [] {
        assert (Write(j) + rest)[2..] == rest;
      } else {
        ReadWriteObject(fields, rest);
      }
  }

  lemma ReadWriteObject(fields: seq<Field>, rest: string)
    requires fields != [] && AllSerializable(fields)
    ensures Read("{" + WriteFields(fields) + "}" + rest) == Some((Object(fields), rest))
    decreases fields, 1
  {
    var t := WriteFields(fields) + "}" + rest;
    ReadWriteFields(fields, rest);
    assert "{" + WriteFields(fields) + "}" + rest == "{" + t;
    ReadObject(t, fields, rest);
  }

  lemma ReadFieldParts(f: Field, value: string, rest: string)
    requires Read(value + rest) == Some((f.value, rest))
    ensures ReadField(Quote(f.key) + ":" + value + rest) == Some((f, rest))
  {
    var tail := ":" + (value + rest);
    var t := Quote(f.key) + ":" + value + rest;
    QuotedKey(Escape(f.key), value, rest);
    ReadStringEscape(f.key, tail);
    ReadFieldOf(t, f.key, tail, f.value, rest);
  }

  lemma QuotedKey(escaped: string, value: string, rest: string)
    ensures
      var t := "\"" + escaped + "\"" + ":" + value + rest;
      t[0] == '"' && t[1..] == escaped + "\"" + (":" + (value + rest)) && (":" + (value + rest))[1..] == value + rest
  {
  }

  lemma ReadFieldOf(t: string, key: string, tail: string, value: Json, rest: string)
    requires t != "" && t[0] == '"' && ReadString(t[1..]) == Some((key, tail))
    requires tail != "" && tail[0] == ':' && Read(tail[1..]) == Some((value, rest))
    ensures ReadField(t) == Some((Field(key, value), rest))
  {
  }

  lemma {:induction false} ReadWriteField(f: Field, rest: string)
    requires Serializable(f.value) && Ends(rest)
    ensures ReadField(WriteField(f) + rest) == Some((f, rest))
    decreases f, 2
  {
    var value := Write(f.value);
    ReadWrite(f.value, rest);
    ReadFieldParts(f, value, rest);
  }

  lemma ReadFieldsCons(t: string, f: Field, more: string, fields: seq<Field>, rest: string)
    requires ReadField(t) == Some((f, "," + more))
    requires ReadFields(more) == Some((fields, rest))
    ensures ReadFields(t) == Some(([f] + fields, rest))
  {
    assert ("," + more)[1..] == more;
  }

  lemma {:induction false} ReadWriteFields(fields: seq<Field>, rest: string)
    requires fields != [] && AllSerializable(fields)
    ensures WriteFields(fields) != "" && WriteFields(fields)[0] == '"'
    ensures ReadFields(WriteFields(fields) + "}" + rest) == Some((fields, rest))
    decreases fields, 0
  {
    var head, tail := fields[0], fields[1..];
    if tail == [] {
      assert fields == [head];
      ReadWriteLastField(head, rest);
    } else {
      assert fields == [head] + tail;
      var more := WriteFields(tail) + "}" + rest;
      ReadWriteField(head, "," + more);
      ReadWriteFields(tail, rest);
      ReadFieldsCons(WriteField(head) + ("," + more), head, more, tail, rest);
      Rejoin(WriteField(head), WriteFields(tail), rest);
    }
  }

  lemma ReadWriteLastField(f: Field, rest: string)
    requires Serializable(f.value)
    ensures ReadFields(WriteField(f) + "}" + rest) == Some(([f], rest))
    decreases f, 3
  {
    var more := "}" + rest;
    ReadWriteField(f, more);
    assert WriteField(f) + "}" + rest == WriteField(f) + more;
    assert more[1..] == rest;
  }

  // ---------------------------------------------------------------- concatenation

  lemma {:induction false} EscapeConcat(a: string, b: string)
    ensures Escape(a + b) == Escape(a) + Escape(b)
  {
    if a == "" {
      assert a + b == b;
    } else {
      assert (a + b)[1..] == a[1..] + b;
      EscapeConcat(a[1..], b);
    }
  }

  /** A character `json.dumps` leaves alone. */
  predicate Plain(s: string) {
    forall i | 0 <= i < |s| :: s[i] as int >= 32 && s[i] != '"' && s[i] != '\\'
  }

  lemma {:induction false} EscapePlain(s: string)
    requires Plain(s)
    ensures Escape(s) == s
  {
    if s != "" {
      EscapePlain(s[1..]);
      assert s == [s[0]] + s[1..];
    }
  }

  lemma WriteFieldsCons(f: Field, fields: seq<Field>)
    requires Serializable(f.value) && AllSerializable(fields) && fields != []
    ensures AllSerializable([f] + fields)
    ensures WriteFields([f] + fields) == WriteField(f) + "," + WriteFields(fields)
  {
    assert ([f] + fields)[1..] == fields;
  }

  lemma Rejoin(x: string, y: string, z: string)
    ensures x + "," + y + "," + z == x + "," + (y + "," + z)
    ensures x + "," + y + "}" + z == x + ("," + (y + "}" + z))
  {
  }

  /** Splitting an object's text between fields. */
  lemma {:induction false} WriteFieldsConcat(a: seq<Field>, b: seq<Field>)
    requires AllSerializable(a) && AllSerializable(b) && a != [] && b != []
    ensures AllSerializable(a + b)
    ensures WriteFields(a + b) == WriteFields(a) + "," + WriteFields(b)
  {
    if |a| == 1 {
      assert a == [a[0]];
      WriteFieldsCons(a[0], b);
    } else {
      var head, tail := a[0], a[1..];
      assert a == [head] + tail && a + b == [head] + (tail + b);
      WriteFieldsConcat(tail, b);
      WriteFieldsCons(head, tail);
      WriteFieldsCons(head, tail + b);
      Rejoin(WriteField(head), WriteFields(tail), WriteFields(b));
    }
  }
}
