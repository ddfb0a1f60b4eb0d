/** The text of the batched INSERT statements, and how the database reads it back:
    MySQL string literals in the default mode, with backslash escapes on. */
module SqlText {
  import opened Options

  /** One cached chat message: the two ids, the message and its timestamp. */
  datatype Record = Record(first: string, second: string, message: string, timestamp: string)

  // ----- Writing -----

  function EscapeChar(c: char): string {
    if c == '\'' then "''" else if c == '\\' then "\\\\" else [c]
  }

  function Escape(s: string): string {
    if s == "" then "" else EscapeChar(s[0]) + Escape(s[1..])
  }

  lemma Regroup(a: string, b: string, c: string)
    ensures (a + b) + c == a + (b + c)
  {
  }

  lemma {:induction false} EscapeSplit(s: string, t: string)
    ensures Escape(s + t) == Escape(s) + Escape(t)
  {
    if s == "" {
      assert s + t == t;
    } else {
      EscapeSplit(s[1..], t);
      assert (s + t)[0] == s[0] && (s + t)[1..] == s[1..] + t;
      var head, mid, tail := EscapeChar(s[0]), Escape(s[1..]), Escape(t);
      Regroup(head, mid, tail);
    }
  }

  /** `escapeSQLString`: one character after the other. */
  method EscapeSQLString(input: string) returns (output: string)
    ensures output == Escape(input)
  {
    output := "";
    var i := 0;
    while i < |input|
      invariant i <= |input| && output == Escape(input[..i])
    {
      assert input[..i + 1] == input[..i] + [input[i]];
      EscapeSplit(input[..i], [input[i]]);
      assert Escape([input[i]]) == EscapeChar(input[i]) + Escape("");
      if input[i] == '\'' {
        output := output + "''";
      } else if input[i] == '\\' {
        output := output + "\\\\";
      } else {
        output := output + [input[i]];
      }
      i := i + 1;
    }
    assert input[..i] == input;
  }

  /** The ids and the timestamp are written without escaping. */
  function Row(r: Record): string {
    "('" + r.first + "', '" + r.second + "', '" + Escape(r.message) + "', '" + r.timestamp + "')"
  }

  function Rows(rs: seq<Record>): string {
    if rs == [] then "" else if |rs| == 1 then Row(rs[0]) else Row(rs[0]) + "," + Rows(rs[1..])
  }

  function Statement(header: string, rs: seq<Record>): string {
    header + Rows(rs) + ";"
  }

  // ----- Reading -----

  /** What a backslash and the next character stand for. */
  function Escaped(c: char): string {
    match c
    case '0' => "\0"
    case 'b' => [8 as char]
    case 'n' => "\n"
    case 'r' => "\r"
    case 't' => "\t"
    case 'Z' => [26 as char]
    case '%' => "\\%"
    case '_' => "\\_"
    case _ => [c]
  }

  /** The rest of a string literal after its opening quote: its value and what follows. */
  function ReadString(s: string): (r: Option<(string, string)>)
    ensures r.Some? ==> |r.value.1| < |s|
  {
    if s == "" then None
    else if s[0] == '\'' then
      if |s| > 1 && s[1] == '\'' then More("'", ReadString(s[2..])) else Some(("", s[1..]))
    else if s[0] == '\\' then
      if |s| == 1 then None else More(Escaped(s[1]), ReadString(s[2..]))
    else More([s[0]], ReadString(s[1..]))
  }

  function More(head: string, r: Option<(string, string)>): Option<(string, string)> {
    if r.None? then None else Some((head + r.value.0, r.value.1))
  }

  function Expect(prefix: string, s: string): (r: Option<string>)
    ensures r.Some? ==> s == prefix + r.value
    ensures r.None? ==> !(prefix <= s)
  {
    if prefix <= s then Some(s[|prefix|..]) else None
  }

  /** A separator up to and with an opening quote, then the literal. */
  function ReadField(before: string, s: string): (r: Option<(string, string)>)
    ensures r.Some? ==> |r.value.1| < |s|
  {
    match Expect(before, s)
    case None => None
    case Some(rest) => ReadString(rest)
  }

  function ReadRow(s: string): (r: Option<(Record, string)>)
    ensures r.Some? ==> |r.value.1| < |s|
  {
    var f1 := ReadField("('", s);
    if f1.None? then None else
    var f2 := ReadField(", '", f1.value.1);
    if f2.None? then None else
    var f3 := ReadField(", '", f2.value.1);
    if f3.None? then None else
    var f4 := ReadField(", '", f3.value.1);
    if f4.None? then None else
    var end := Expect(")", f4.value.1);
    if end.None? then None else
    Some((Record(f1.value.0, f2.value.0, f3.value.0, f4.value.0), end.value))
  }

  /** One or more rows, separated by commas, up to a semicolon. */
  function ReadRows(s: string): Option<seq<Record>>
    decreases |s|
  {
    match ReadRow(s)
    case None => None
    case Some((r, rest)) =>
      if rest == ";" then Some([r])
      else if rest == "" || rest[0] != ',' then None
      else
        match ReadRows(rest[1..])
        case None => None
        case Some(rs) => Some([r] + rs)
  }

  /** The rows a statement inserts, or None for a syntax error. */
  function ReadInsert(header: string, sql: string): Option<seq<Record>> {
    match Expect(header, sql)
    case None => None
    case Some(rest) => ReadRows(rest)
  }

  // ----- Round trip -----

  predicate Plain(s: string) {
    '\'' !in s && '\\' !in s
  }

  predicate PlainIds(r: Record) {
    Plain(r.first) && Plain(r.second) && Plain(r.timestamp)
  }

  lemma {:induction false} PlainIsUnescaped(s: string)
    requires Plain(s)
    ensures Escape(s) == s
  {
    if s == "" {
    } else {
      PlainIsUnescaped(s[1..]);
    }
  }

  /** An escaped string between quotes is read back as it was, whatever it holds. */
  lemma {:induction false} ReadEscaped(s: string, rest: string)
    requires rest == "" || rest[0] != '\''
    ensures ReadString(Escape(s) + "'" + rest) == Some((s, rest))
  {
    var text := Escape(s) + "'" + rest;
    if s == "" {
      assert text == "'" + rest;
    } else {
      ReadEscaped(s[1..], rest);
      var tail := Escape(s[1..]) + "'" + rest;
      Regroup(EscapeChar(s[0]), Escape(s[1..]), "'");
      Regroup(EscapeChar(s[0]), Escape(s[1..]) + "'", rest);
      assert s == [s[0]] + s[1..];
      if s[0] == '\'' || s[0] == '\\' {
        assert text[2..] == tail;
      } else {
        assert text[1..] == tail;
      }
    }
  }

  lemma DropPrefix(a: string, b: string)
    ensures a <= a + b && (a + b)[|a|..] == b
  {
  }

  lemma ReadEscapedField(before: string, s: string, rest: string)
    requires rest == "" || rest[0] != '\''
    ensures ReadField(before, before + Escape(s) + "'" + rest) == Some((s, rest))
  {
    ReadEscaped(s, rest);
    var literal := Escape(s) + "'" + rest;
    assert before + Escape(s) + "'" + rest == before + literal;
    DropPrefix(before, literal);
  }

  lemma ReadOneRow(r: Record, rest: string)
    requires PlainIds(r)
    ensures ReadRow(Row(r) + rest) == Some((r, rest))
  {
    PlainIsUnescaped(r.first);
    PlainIsUnescaped(r.second);
    PlainIsUnescaped(r.timestamp);
    var t4 := ")" + rest;
    var t3 := ", '" + Escape(r.timestamp) + "'" + t4;
    var t2 := ", '" + Escape(r.message) + "'" + t3;
    var t1 := ", '" + Escape(r.second) + "'" + t2;
    var t0 := "('" + Escape(r.first) + "'" + t1;
    RowShape(r, rest);
    ReadEscapedField("('", r.first, t1);
    ReadEscapedField(", '", r.second, t2);
    ReadEscapedField(", '", r.message, t3);
    ReadEscapedField(", '", r.timestamp, t4);
  }

  lemma RowShape(r: Record, rest: string)
    ensures Row(r) + rest ==
      "('" + r.first + "'" + (", '" + r.second + "'" + (", '" + Escape(r.message) + "'" + (", '" + r.timestamp + "'" + (")" + rest))))
  {
  }

  lemma RowsShape(r: Record, more: string)
    ensures Row(r) + "," + more + ";" == Row(r) + ("," + (more + ";"))
  {
  }

  lemma UnfoldRows(s: string, r: Record, more: string, rs: seq<Record>)
    requires ReadRow(s) == Some((r, "," + more)) && ReadRows(more) == Some(rs)
    ensures ReadRows(s) == Some([r] + rs)
  {
    var rest := "," + more;
    assert rest[0] == ',' && rest[1..] == more;
    assert rest != ";";
  }

  lemma {:induction false} ReadAllRows(rs: seq<Record>)
    requires rs != [] && forall r :: r in rs ==> PlainIds(r)
    ensures ReadRows(Rows(rs) + ";") == Some(rs)
    decreases |rs|
  {
    var r, tail := rs[0], rs[1..];
    assert rs == [r] + tail;
    if |rs| == 1 {
      ReadOneRow(r, ";");
      assert rs == [r] && Rows(rs) == Row(r);
    } else {
      var more := Rows(tail) + ";";
      ReadAllRows(tail);
      ReadOneRow(r, "," + more);
      UnfoldRows(Row(r) + ("," + more), r, more, tail);
      RowsShape(r, Rows(tail));
      assert Rows(rs) == Row(r) + "," + Rows(tail);
      assert Rows(rs) + ";" == Row(r) + ("," + more);
    }
  }

  /** The database reads from a statement exactly the rows it was built from, for
      arbitrary messages; a statement built from no rows is a syntax error. */
  lemma StatementRoundTrip(header: string, rs: seq<Record>)
    requires forall r :: r in rs ==> PlainIds(r)
    ensures ReadInsert(header, Statement(header, rs)) == if rs == [] then None else Some(rs)
  {
    var sql := Statement(header, rs);
    assert sql == header + (Rows(rs) + ";");
    assert sql[|header|..] == Rows(rs) + ";";
    if rs == [] {
      assert Rows(rs) + ";" == ";";
      assert !("('" <= ";");
    } else {
      ReadAllRows(rs);
    }
  }

  // ----- What arrives at the server -----

  const NUL: char := '\0'

  /** The text as `mysql_query` takes it, a C string: it ends at the first NUL. */
  function CStr(s: string): string {
    if s == "" || s[0] == NUL then "" else [s[0]] + CStr(s[1..])
  }

  predicate HasNul(r: Record) {
    NUL in r.first || NUL in r.second || NUL in r.message || NUL in r.timestamp
  }

  predicate SomeNul(rs: seq<Record>) {
    exists r :: r in rs && HasNul(r)
  }

  lemma {:induction false} CStrKeepsFront(a: string, b: string)
    requires NUL !in a
    ensures CStr(a + b) == a + CStr(b)
  {
    if a == "" {
      assert a + b == b;
    } else {
      CStrKeepsFront(a[1..], b);
      assert (a + b)[0] == a[0] && (a + b)[1..] == a[1..] + b;
      Regroup([a[0]], a[1..], CStr(b));
      assert a == [a[0]] + a[1..];
    }
  }

  lemma {:induction false} EscapeKeepsNul(s: string)
    ensures NUL in Escape(s) <==> NUL in s
  {
    if s == "" {
    } else {
      EscapeKeepsNul(s[1..]);
      assert s == [s[0]] + s[1..];
    }
  }

  /** A literal that is cut off has no closing quote. */
  lemma {:induction false} CutLiteral(s: string, rest: string)
    requires NUL in s
    ensures ReadString(CStr(Escape(s) + rest)) == None
  {
    var c, tail := s[0], Escape(s[1..]) + rest;
    Regroup(EscapeChar(c), Escape(s[1..]), rest);
    assert Escape(s) + rest == EscapeChar(c) + tail;
    if c == NUL {
    } else {
      assert NUL in s[1..];
      CutLiteral(s[1..], rest);
      CStrKeepsFront(EscapeChar(c), tail);
      var text := EscapeChar(c) + CStr(tail);
      if c == '\'' || c == '\\' {
        assert text[2..] == CStr(tail);
      } else {
        assert text[1..] == CStr(tail);
      }
    }
  }

  /** A field of a statement that is cut: complete, or with its literal cut off. */
  lemma CutField(before: string, s: string, rest: string)
    requires NUL !in before && (rest == "" || rest[0] != '\'')
    ensures ReadField(before, CStr(before + Escape(s) + "'" + rest)) == if NUL in s then None else Some((s, CStr(rest)))
  {
    Regroup(before, Escape(s), "'");
    Regroup(before, Escape(s) + "'", rest);
    Regroup(Escape(s), "'", rest);
    CStrKeepsFront(before, Escape(s) + "'" + rest);
    if NUL in s {
      CutLiteral(s, "'" + rest);
      DropPrefix(before, CStr(Escape(s) + ("'" + rest)));
    } else {
      EscapeKeepsNul(s);
      CStrKeepsFront(Escape(s) + "'", rest);
      ReadEscapedField(before, s, CStr(rest));
      Regroup(before, Escape(s) + "'", CStr(rest));
    }
  }

  lemma CutRow(r: Record, rest: string)
    requires PlainIds(r)
    ensures ReadRow(CStr(Row(r) + rest)) == if HasNul(r) then None else Some((r, CStr(rest)))
  {
    PlainIsUnescaped(r.first);
    PlainIsUnescaped(r.second);
    PlainIsUnescaped(r.timestamp);
    var t4 := ")" + rest;
    var t3 := ", '" + Escape(r.timestamp) + "'" + t4;
    var t2 := ", '" + Escape(r.message) + "'" + t3;
    var t1 := ", '" + Escape(r.second) + "'" + t2;
    RowShape(r, rest);
    CutField("('", r.first, t1);
    CutField(", '", r.second, t2);
    CutField(", '", r.message, t3);
    CutField(", '", r.timestamp, t4);
    CStrKeepsFront(")", rest);
  }

  lemma RowsBroken(s: string, r: Record, more: string)
    requires ReadRow(s) == Some((r, "," + more)) && ReadRows(more) == None
    ensures ReadRows(s) == None
  {
    var rest := "," + more;
    assert rest[0] == ',' && rest[1..] == more;
    assert more == "" ==> ReadRow(more) == None;
  }

  /** One NUL anywhere makes the whole statement a syntax error. */
  lemma {:induction false} CutRowsBreak(rs: seq<Record>)
    requires SomeNul(rs) && forall r :: r in rs ==> PlainIds(r)
    ensures ReadRows(CStr(Rows(rs) + ";")) == None
    decreases |rs|
  {
    var r, tail := rs[0], rs[1..];
    assert rs == [r] + tail;
    if |rs| == 1 {
      CutRow(r, ";");
    } else {
      var more := Rows(tail) + ";";
      RowsShape(r, Rows(tail));
      CutRow(r, "," + more);
      CStrKeepsFront(",", more);
      if !HasNul(r) {
        CutRowsBreak(tail);
        RowsBroken(CStr(Row(r) + ("," + more)), r, CStr(more));
      }
    }
  }

  lemma {:induction false} RowsWithoutNul(rs: seq<Record>)
    requires !SomeNul(rs) && forall r :: r in rs ==> PlainIds(r)
    ensures NUL !in Rows(rs)
    decreases |rs|
  {
    if rs == [] {
    } else {
      var r := rs[0];
      assert rs == [r] + rs[1..] && !HasNul(r);
      EscapeKeepsNul(r.message);
      assert NUL !in Row(r);
      RowsWithoutNul(rs[1..]);
    }
  }

  /** Sent as a C string, a statement arrives as exactly the rows it was built from, unless
      there are none or one of them holds a NUL: then it is a syntax error. */
  lemma SentRoundTrip(header: string, rs: seq<Record>)
    requires NUL !in header && forall r :: r in rs ==> PlainIds(r)
    ensures ReadInsert(header, CStr(Statement(header, rs))) == if rs == [] || SomeNul(rs) then None else Some(rs)
  {
    var text := Rows(rs) + ";";
    Regroup(header, Rows(rs), ";");
    CStrKeepsFront(header, text);
    DropPrefix(header, CStr(text));
    if SomeNul(rs) {
      CutRowsBreak(rs);
    } else {
      RowsWithoutNul(rs);
      CStrKeepsFront(text, "");
      assert text + "" == text;
      StatementRoundTrip(header, rs);
    }
  }

  // ----- Building row by row -----

  /** Adding a row to a list of rows, with a comma unless it is the first. */
  lemma {:induction false} RowsAppend(rs: seq<Record>, r: Record)
    ensures Rows(rs + [r]) == Rows(rs) + (if rs == [] then "" else ",") + Row(r)
    decreases |rs|
  {
    if rs == [] {
    } else if |rs| == 1 {
      assert (rs + [r])[1..] == [r];
    } else {
      RowsAppend(rs[1..], r);
      assert (rs + [r])[1..] == rs[1..] + [r];
    }
  }
}
