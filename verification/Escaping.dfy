/** Identifier quoting, the INSERT text built from it, and the scanner a SQL reader applies to that text. */
module Escaping {
  import opened Wrappers

  datatype NameError = EmptyName | NulInName

  predicate ValidName(name: string) {
    name != "" && 0 as char !in name
  }

  predicate AllValid(names: seq<string>) {
    forall i | 0 <= i < |names| :: ValidName(names[i])
  }

  function Double(s: string): string {
    if s == "" then "" else (if s[0] == '"' then "\"\"" else [s[0]]) + Double(s[1..])
  }

  function Quoted(name: string): (s: string)
    ensures s != "" && s[0] == '"'
  {
    "\"" + Double(name) + "\""
  }

  function QuoteIdentifier(name: string): (r: Result<string, NameError>)
    ensures r.Ok? <==> name != "" && 0 as char !in name
    ensures r == Err(EmptyName) <==> name == ""
  {
    if name == "" then Err(EmptyName)
    else if 0 as char in name then Err(NulInName)
    else Ok(Quoted(name))
  }

  /** `sep.join(quote_identifier(part) for part in names)`. */
  function QuoteList(names: seq<string>, sep: string): (r: Result<string, NameError>)
    ensures r.Ok? <==> AllValid(names)
  {
    if names == [] then Ok("")
    else match QuoteIdentifier(names[0])
      case Err(e) => Err(e)
      case Ok(first) =>
        if |names| == 1 then Ok(first)
        else match QuoteList(names[1..], sep)
          case Err(e) => Err(e)
          case Ok(others) => Ok(first + sep + others)
  }

  /** The first bad name decides the error. */
  lemma {:induction false} QuoteListError(names: seq<string>, sep: string) returns (i: nat)
    requires QuoteList(names, sep).Err?
    ensures i < |names| && AllValid(names[..i]) && QuoteIdentifier(names[i]) == QuoteList(names, sep)
  {
    if QuoteIdentifier(names[0]).Err? {
      i := 0;
    } else {
      var j := QuoteListError(names[1..], sep);
      i := j + 1;
      assert forall k | 0 < k < i :: names[..i][k] == names[1..][..j][k - 1];
    }
  }

  /** Python's `name.split(".")`. */
  function Split(name: string): (parts: seq<string>)
    ensures parts != []
  {
    if name == "" then [""]
    else if name[0] == '.' then [""] + Split(name[1..])
    else var rest := Split(name[1..]); [[name[0]] + rest[0]] + rest[1..]
  }

  function Join(parts: seq<string>, sep: string): string {
    if parts == [] then "" else if |parts| == 1 then parts[0] else parts[0] + sep + Join(parts[1..], sep)
  }

  function QuoteName(name: string): (r: Result<string, NameError>)
    ensures r.Ok? <==> AllValid(Split(name))
  {
    QuoteList(Split(name), ".")
  }

  lemma JoinEmptyFirst(rest: seq<string>, sep: string)
    requires rest != []
    ensures Join([""] + rest, sep) == sep + Join(rest, sep)
  {
    assert ([""] + rest)[1..] == rest;
  }

  lemma JoinLongerFirst(c: char, parts: seq<string>, sep: string)
    requires parts != []
    ensures Join([[c] + parts[0]] + parts[1..], sep) == [c] + Join(parts, sep)
  {
    var longer := [[c] + parts[0]] + parts[1..];
    assert longer[1..] == parts[1..];
    if |parts| > 1 {
      Chain([c], parts[0], sep, Join(parts[1..], sep));
      assert longer[0] + sep + Join(parts[1..], sep) == [c] + (parts[0] + sep + Join(parts[1..], sep));
    }
  }

  /** Splitting on dots loses nothing. */
  lemma {:induction false} JoinSplit(name: string)
    ensures Join(Split(name), ".") == name
  {
    if name != "" {
      JoinSplit(name[1..]);
      assert name == [name[0]] + name[1..];
      if name[0] == '.' {
        JoinEmptyFirst(Split(name[1..]), ".");
      } else {
        JoinLongerFirst(name[0], Split(name[1..]), ".");
      }
    }
  }

  /** Splitting leaves no dot inside a part. */
  lemma {:induction false} SplitHasNoDots(name: string)
    ensures forall i | 0 <= i < |Split(name)| :: '.' !in Split(name)[i]
  {
    if name != "" {
      SplitHasNoDots(name[1..]);
      SplitNoDotsCons(name[0], Split(name[1..]));
    }
  }

  lemma SplitNoDotsCons(c: char, rest: seq<string>)
    requires rest != [] && forall i | 0 <= i < |rest| :: '.' !in rest[i]
    ensures forall i | 0 <= i < |[""] + rest| :: '.' !in ([""] + rest)[i]
    ensures c != '.' ==>
      forall i | 0 <= i < |[[c] + rest[0]] + rest[1..]| :: '.' !in ([[c] + rest[0]] + rest[1..])[i]
  {
    var longer := [[c] + rest[0]] + rest[1..];
    forall i | 0 <= i < |longer| && c != '.'
      ensures '.' !in longer[i]
    {
      if i == 0 {
        assert longer[0] == [c] + rest[0];
      } else {
        assert longer[i] == rest[i];
      }
    }
    forall i | 0 <= i < |[""] + rest|
      ensures '.' !in ([""] + rest)[i]
    {
      if i > 0 {
        assert ([""] + rest)[i] == rest[i - 1];
      }
    }
  }

  // ---------------------------------------------------------------- the reader's scanner

  /** A quoted identifier's name and what follows it, read after its opening quote. */
  function ScanBody(t: string): (r: Option<(string, string)>)
    ensures r.Some? ==> |r.value.1| < |t|
    decreases |t|
  {
    if t == "" then None
    else if t[0] == '"' && (|t| == 1 || t[1] != '"') then Some(("", t[1..]))
    else
      var k := if t[0] == '"' then 2 else 1;
      match ScanBody(t[k..])
      case None => None
      case Some((name, rest)) => Some(([t[0]] + name, rest))
  }

  function ScanIdentifier(t: string): (r: Option<(string, string)>)
    ensures r.Some? ==> |r.value.1| < |t|
  {
    if t == "" || t[0] != '"' then None else ScanBody(t[1..])
  }

  function ScanList(t: string, sep: string): (r: Option<(seq<string>, string)>)
    decreases |t|
  {
    match ScanIdentifier(t)
    case None => None
    case Some((name, rest)) =>
      if sep <= rest then
        match ScanList(rest[|sep|..], sep)
        case None => None
        case Some((names, more)) => Some(([name] + names, more))
      else Some(([name], rest))
  }

  predicate NoQuote(t: string) {
    t == "" || t[0] != '"'
  }

  lemma ScanBodyChar(c: char, tail: string, name: string, rest: string)
    requires ScanBody(tail) == Some((name, rest))
    ensures ScanBody((if c == '"' then "\"\"" else [c]) + tail) == Some(([c] + name, rest))
  {
    var head := if c == '"' then "\"\"" else [c];
    assert (head + tail)[|head|..] == tail;
  }

  lemma {:induction false} ScanBodyDouble(name: string, rest: string)
    requires NoQuote(rest)
    ensures ScanBody(Double(name) + "\"" + rest) == Some((name, rest))
  {
    if name == "" {
      assert Double(name) + "\"" + rest == "\"" + rest;
      assert ("\"" + rest)[1..] == rest;
    } else {
      var head := if name[0] == '"' then "\"\"" else [name[0]];
      ScanBodyDouble(name[1..], rest);
      ScanBodyChar(name[0], Double(name[1..]) + "\"" + rest, name[1..], rest);
      Chain(head, Double(name[1..]), "\"", rest);
      assert Double(name[1..]) + ("\"" + rest) == Double(name[1..]) + "\"" + rest;
      assert name == [name[0]] + name[1..];
    }
  }

  /** The scanner recovers exactly the name from its quoted form: no name can end its own quotes. */
  lemma ScanQuoted(name: string, rest: string)
    requires QuoteIdentifier(name).Ok? && NoQuote(rest)
    ensures ScanIdentifier(QuoteIdentifier(name).value + rest) == Some((name, rest))
  {
    ScanBodyDouble(name, rest);
    assert (Quoted(name) + rest)[1..] == Double(name) + "\"" + rest;
  }

  lemma ScanListCons(name: string, sep: string, tail: string, names: seq<string>, rest: string)
    requires QuoteIdentifier(name).Ok?
    requires sep != "" && NoQuote(sep) && ScanList(tail, sep) == Some((names, rest))
    ensures ScanList(QuoteIdentifier(name).value + (sep + tail), sep) == Some(([name] + names, rest))
  {
    ScanQuoted(name, sep + tail);
    assert sep <= sep + tail && (sep + tail)[|sep|..] == tail;
  }

  lemma {:induction false} ScanQuotedList(names: seq<string>, sep: string, rest: string)
    requires names != [] && QuoteList(names, sep).Ok?
    requires sep != "" && NoQuote(sep) && NoQuote(rest) && !(sep <= rest)
    ensures ScanList(QuoteList(names, sep).value + rest, sep) == Some((names, rest))
  {
    if |names| == 1 {
      ScanQuoted(names[0], rest);
      assert names == [names[0]];
    } else {
      var first, others := QuoteIdentifier(names[0]).value, QuoteList(names[1..], sep).value;
      ScanQuotedList(names[1..], sep, rest);
      ScanListCons(names[0], sep, others + rest, names[1..], rest);
      Chain(first, sep, others, rest);
      assert names == [names[0]] + names[1..];
    }
  }

  lemma Chain(a: string, b: string, c: string, d: string)
    ensures a + b + c + d == a + (b + (c + d))
  {
  }

  /** A qualified name is read back as its dot-separated parts, and those parts rejoin to the name given. */
  lemma ScanQuotedName(name: string, rest: string)
    requires QuoteName(name).Ok? && NoQuote(rest) && !("." <= rest)
    ensures ScanList(QuoteName(name).value + rest, ".") == Some((Split(name), rest))
    ensures Join(Split(name), ".") == name
  {
    ScanQuotedList(Split(name), ".", rest);
    JoinSplit(name);
  }

  // ---------------------------------------------------------------- INSERT text

  /** `sep.join([item] * k)` with `sep == ", "`. */
  function Repeat(item: string, k: nat): string {
    if k == 0 then "" else if k == 1 then item else item + ", " + Repeat(item, k - 1)
  }

  function Placeholder(width: nat): (s: string)
    ensures s != ""
  {
    "(" + Repeat("?", width) + ")"
  }

  /** The text before the placeholders. Columns are quoted before the table name. */
  function InsertPrefix(table: string, columns: seq<string>): (r: Result<string, NameError>)
    ensures r.Ok? <==> AllValid(columns) && AllValid(Split(table))
  {
    match QuoteList(columns, ", ")
    case Err(e) => Err(e)
    case Ok(cols) =>
      match QuoteName(table)
      case Err(e) => Err(e)
      case Ok(target) => Ok("INSERT INTO " + target + " (" + cols + ") VALUES ")
  }

  datatype Insert = Insert(target: seq<string>, columns: seq<string>, rows: nat)

  function Strip(t: string, prefix: string): Option<string> {
    if prefix <= t then Some(t[|prefix|..]) else None
  }

  /** Question marks separated by `", "`: how many, and what follows. */
  function ReadMarks(t: string): (r: Option<(nat, string)>)
    ensures r.Some? ==> |r.value.1| < |t|
    decreases |t|
  {
    match Strip(t, "?")
    case None => None
    case Some(rest) =>
      if ", ?" <= rest then
        match ReadMarks(rest[2..]) case None => None case Some((n, more)) => Some((n + 1, more))
      else Some((1, rest))
  }

  function ReadTuple(t: string): (r: Option<(nat, string)>)
    ensures r.Some? ==> |r.value.1| < |t|
  {
    match Strip(t, "(")
    case None => None
    case Some(marks) =>
      match ReadMarks(marks)
      case None => None
      case Some((n, close)) => match Strip(close, ")") case None => None case Some(rest) => Some((n, rest))
  }

  /** Parenthesised tuples to the end of the text, as their numbers of question marks. */
  function ReadTuples(t: string): Option<seq<nat>>
    decreases |t|
  {
    match ReadTuple(t)
    case None => None
    case Some((n, rest)) =>
      if rest == "" then Some([n])
      else match Strip(rest, ", ")
        case None => None
        case Some(more) => match ReadTuples(more) case None => None case Some(ns) => Some([n] + ns)
  }

  /** What a reader of the statement takes it to insert. */
  function ReadInsert(sql: string): Option<Insert> {
    match Strip(sql, "INSERT INTO ")
    case None => None
    case Some(t0) =>
      match ScanList(t0, ".")
      case None => None
      case Some((target, t1)) =>
        match Strip(t1, " (")
        case None => None
        case Some(t2) =>
          match ScanList(t2, ", ")
          case None => None
          case Some((columns, t3)) =>
            match Strip(t3, ") VALUES ")
            case None => None
            case Some(t4) =>
              match ReadTuples(t4)
              case None => None
              case Some(widths) =>
                if forall i | 0 <= i < |widths| :: widths[i] == |columns| then Some(Insert(target, columns, |widths|))
                else None
  }

  lemma StripConcat(prefix: string, rest: string)
    ensures Strip(prefix + rest, prefix) == Some(rest)
  {
    assert (prefix + rest)[|prefix|..] == rest;
  }

  lemma {:induction false} ReadMarksRepeat(k: nat, rest: string)
    requires k > 0 && !(", ?" <= rest)
    ensures ReadMarks(Repeat("?", k) + rest) == Some((k, rest))
  {
    if k == 1 {
      StripConcat("?", rest);
    } else {
      var more := Repeat("?", k - 1) + rest;
      ReadMarksRepeat(k - 1, rest);
      MarksBegin(k - 1);
      assert Repeat("?", k) + rest == "?" + (", " + more);
      ReadMarksMore(more);
    }
  }

  lemma ReadMarksMore(more: string)
    requires more != "" && more[0] == '?' && ReadMarks(more).Some?
    ensures
      var (n, rest) := ReadMarks(more).value;
      ReadMarks("?" + (", " + more)) == Some((n + 1, rest))
  {
    StripConcat("?", ", " + more);
    assert (", " + more)[2..] == more && ", ?" <= ", " + more;
  }

  lemma MarksBegin(k: nat)
    requires k > 0
    ensures Repeat("?", k) != "" && Repeat("?", k)[0] == '?'
  {
  }

  lemma ReadPlaceholder(width: nat, rest: string)
    requires width > 0
    ensures ReadTuple(Placeholder(width) + rest) == Some((width, rest))
  {
    var marks := Repeat("?", width);
    assert Placeholder(width) + rest == "(" + (marks + (")" + rest));
    StripConcat("(", marks + (")" + rest));
    assert (")" + rest)[0] != ", ?"[0];
    ReadMarksRepeat(width, ")" + rest);
    StripConcat(")", rest);
  }

  lemma {:induction false} ReadRepeated(width: nat, k: nat)
    requires width > 0 && k > 0
    ensures
      var widths := ReadTuples(Repeat(Placeholder(width), k));
      widths.Some? && |widths.value| == k && forall i | 0 <= i < k :: widths.value[i] == width
  {
    var tuple := Placeholder(width);
    if k == 1 {
      ReadPlaceholder(width, "");
      assert tuple + "" == tuple;
    } else {
      var more := Repeat(tuple, k - 1);
      ReadRepeated(width, k - 1);
      ReadPlaceholder(width, ", " + more);
      ReadTuplesCons(tuple, width, more, ReadTuples(more).value);
    }
  }

  lemma ReadTuplesCons(tuple: string, n: nat, more: string, ns: seq<nat>)
    requires ReadTuple(tuple + (", " + more)) == Some((n, ", " + more)) && ReadTuples(more) == Some(ns)
    ensures ReadTuples(tuple + ", " + more) == Some([n] + ns)
  {
    StripConcat(", ", more);
    assert tuple + ", " + more == tuple + (", " + more);
  }

  lemma ReadInsertSteps(t0: string, t2: string, t4: string, insert: Insert, widths: seq<nat>)
    requires ScanList(t0, ".") == Some((insert.target, " (" + t2))
    requires ScanList(t2, ", ") == Some((insert.columns, ") VALUES " + t4))
    requires ReadTuples(t4) == Some(widths) && |widths| == insert.rows
    requires forall i | 0 <= i < |widths| :: widths[i] == |insert.columns|
    ensures ReadInsert("INSERT INTO " + t0) == Some(insert)
  {
    StripConcat("INSERT INTO ", t0);
    StripConcat(" (", t2);
    StripConcat(") VALUES ", t4);
  }

  lemma InsertTextPieces(target: string, cols: string, tuples: string)
    ensures "INSERT INTO " + target + " (" + cols + ") VALUES " + tuples
         == "INSERT INTO " + (target + (" (" + (cols + (") VALUES " + tuples))))
  {
  }

  /** Every accepted INSERT text is read back as its table parts, its columns and its row count. */
  lemma ReadInsertText(table: string, columns: seq<string>, k: nat)
    requires InsertPrefix(table, columns).Ok? && columns != [] && k > 0
    ensures ReadInsert(InsertPrefix(table, columns).value + Repeat(Placeholder(|columns|), k))
         == Some(Insert(Split(table), columns, k))
  {
    var tuples := Repeat(Placeholder(|columns|), k);
    var target, cols := QuoteName(table).value, QuoteList(columns, ", ").value;
    var t3 := ") VALUES " + tuples;
    var t2 := cols + t3;
    ScanQuotedName(table, " (" + t2);
    ScanQuotedList(columns, ", ", t3);
    ReadRepeated(|columns|, k);
    InsertTextPieces(target, cols, tuples);
    ReadInsertSteps(target + (" (" + t2), t2, tuples, Insert(Split(table), columns, k), ReadTuples(tuples).value);
  }
}
