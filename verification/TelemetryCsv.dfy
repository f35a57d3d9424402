/** The field parser of the telemetry analyzer, against the quoting rules of section 2 of RFC 4180. */
module TelemetryCsv {

  datatype Parsed = Unterminated | Fields(fields: seq<string>)

  /** White space that trimming removes. */
  predicate IsSpace(c: char) {
    c in {' ', '\t', '\n', '\r', '\U{b}', '\U{c}', '\U{85}', '\U{a0}', '\U{1680}', '\U{2028}', '\U{2029}', '\U{202f}',
          '\U{205f}', '\U{3000}'} || '\U{2000}' <= c <= '\U{200a}'
  }

  function TrimStart(s: string): string {
    if s != "" && IsSpace(s[0]) then TrimStart(s[1..]) else s
  }

  function TrimEnd(s: string): string {
    if s != "" && IsSpace(s[|s| - 1]) then TrimEnd(s[..|s| - 1]) else s
  }

  function Trim(s: string): string {
    TrimEnd(TrimStart(s))
  }

  predicate Trimmed(s: string) {
    s != "" ==> !IsSpace(s[0]) && !IsSpace(s[|s| - 1])
  }

  lemma {:induction false} TrimStartShape(s: string)
    ensures var t := TrimStart(s);
            && (t != "" ==> !IsSpace(t[0])) && |t| <= |s| && (t == s <==> s == "" || !IsSpace(s[0]))
            && (t != "" ==> s != "" && t[|t| - 1] == s[|s| - 1])
    decreases |s|
  {
    if s != "" && IsSpace(s[0]) {
      TrimStartShape(s[1..]);
    }
  }

  lemma {:induction false} TrimEndShape(s: string)
    ensures var t := TrimEnd(s);
            && (t != "" ==> !IsSpace(t[|t| - 1])) && |t| <= |s| && (t == s <==> s == "" || !IsSpace(s[|s| - 1]))
            && (t != "" ==> s != "" && t[0] == s[0])
    decreases |s|
  {
    if s != "" && IsSpace(s[|s| - 1]) {
      TrimEndShape(s[..|s| - 1]);
    }
  }

  /** Trimming changes a string exactly when it has white space at an end. */
  lemma {:induction false} TrimIsIdentity(s: string)
    ensures Trim(s) == s <==> Trimmed(s)
    ensures Trimmed(Trim(s))
  {
    TrimStartShape(s);
    TrimEndShape(TrimStart(s));
  }

  predicate AllSpace(s: string) {
    forall i :: 0 <= i < |s| ==> IsSpace(s[i])
  }

  lemma {:induction false} TrimStartOf(s: string, a: nat)
    requires a <= |s| && AllSpace(s[..a]) && (a == |s| || !IsSpace(s[a]))
    ensures TrimStart(s) == s[a..]
    decreases |s|
  {
    if a > 0 {
      assert s[..a][0] == s[0] && s[1..][..a - 1] == s[..a][1..];
      TrimStartOf(s[1..], a - 1);
      assert s[1..][a - 1..] == s[a..];
    }
  }

  lemma {:induction false} TrimEndOf(s: string, b: nat)
    requires b <= |s| && AllSpace(s[b..]) && (b == 0 || !IsSpace(s[b - 1]))
    ensures TrimEnd(s) == s[..b]
    decreases |s|
  {
    if b < |s| {
      var n := |s| - 1;
      assert s[b..][n - b] == s[n] && s[..n][b..] == s[b..][..n - b];
      TrimEndOf(s[..n], b);
      assert s[..n][..b] == s[..b];
    }
  }

  /** Trimming leaves the text between the first and the last character that is not white space. */
  lemma {:induction false} TrimIsExact(s: string, a: nat, b: nat)
    requires a <= b <= |s| && AllSpace(s[..a]) && AllSpace(s[b..])
    requires if a < b then !IsSpace(s[a]) && !IsSpace(s[b - 1]) else b == |s|
    ensures Trim(s) == s[a..b]
  {
    TrimStartOf(s, a);
    var t := s[a..];
    if a < b {
      assert t[b - a - 1] == s[b - 1] && t[b - a..] == s[b..];
      TrimEndOf(t, b - a);
      assert t[..b - a] == s[a..b];
    }
  }

  lemma {:induction false} TrimmedBounds(s: string) returns (a: nat, b: nat)
    ensures a <= b <= |s| && AllSpace(s[..a]) && AllSpace(s[b..])
    ensures if a < b then !IsSpace(s[a]) && !IsSpace(s[b - 1]) else b == |s|
  {
    a := 0;
    while a < |s| && IsSpace(s[a])
      invariant a <= |s| && AllSpace(s[..a])
    {
      a := a + 1;
    }
    b := |s|;
    while a < b && IsSpace(s[b - 1])
      invariant a <= b <= |s| && AllSpace(s[b..]) && (a < |s| ==> a < b)
    {
      b := b - 1;
    }
  }

  // ----- the parser

  datatype State = State(fields: seq<string>, current: string, quoted: bool)

  const START: State := State([], "", false)

  /** The state after the rest of a line. */
  function Scan(st: State, s: string): State
    decreases |s|
  {
    if s == "" then st
    else if s[0] == '"' && st.quoted && |s| > 1 && s[1] == '"' then Scan(st.(current := st.current + "\""), s[2..])
    else if s[0] == '"' then Scan(st.(quoted := !st.quoted), s[1..])
    else if s[0] == ',' && !st.quoted then Scan(State(st.fields + [Trim(st.current)], "", false), s[1..])
    else Scan(st.(current := st.current + [s[0]]), s[1..])
  }

  function Finish(st: State): Parsed {
    if st.quoted then Unterminated else Fields(st.fields + [Trim(st.current)])
  }

  /** The character loop. */
  method ParseLine(line: string) returns (r: Parsed)
    ensures r == Finish(Scan(START, line))
  {
    var fields, current, quoted, i := [], "", false, 0;
    while i < |line|
      invariant 0 <= i <= |line|
      invariant Scan(State(fields, current, quoted), line[i..]) == Scan(START, line)
    {
      var ch := line[i];
      assert line[i..][0] == ch && line[i..][1..] == line[i + 1..];
      assert i + 1 < |line| ==> line[i..][1] == line[i + 1] && line[i..][2..] == line[i + 2..];
      i := i + 1;
      if ch == '"' && quoted && i < |line| && line[i] == '"' {
        current := current + "\"";
        i := i + 1;
      } else if ch == '"' {
        quoted := !quoted;
      } else if ch == ',' && !quoted {
        fields := fields + [Trim(current)];
        current := "";
      } else {
        current := current + [ch];
      }
    }
    if quoted {
      return Unterminated;
    }
    r := Fields(fields + [Trim(current)]);
  }

  // ----- the writer of RFC 4180

  function Doubled(s: string): string {
    if s == "" then "" else (if s[0] == '"' then "\"\"" else [s[0]]) + Doubled(s[1..])
  }

  function Quote(s: string): string {
    "\"" + Doubled(s) + "\""
  }

  /** A field that may be written bare: without quotes and commas. */
  predicate Plain(s: string) {
    forall i :: 0 <= i < |s| ==> s[i] != '"' && s[i] != ','
  }

  function Cell(field: string, quoted: bool): string {
    if quoted then Quote(field) else field
  }

  /** The writer may choose, field by field, to quote or, where the field is plain, not to. */
  predicate Choice(fields: seq<string>, quoted: seq<bool>) {
    fields != [] && |fields| == |quoted| && forall i :: 0 <= i < |fields| ==> quoted[i] || Plain(fields[i])
  }

  function Join(fields: seq<string>, quoted: seq<bool>): string
    requires fields != [] && |fields| == |quoted|
  {
    if |fields| == 1 then Cell(fields[0], quoted[0])
    else Cell(fields[0], quoted[0]) + "," + Join(fields[1..], quoted[1..])
  }

  /** Outside quotes the parser takes in a plain text as it is. */
  lemma {:induction false} ScanPlain(fields: seq<string>, current: string, s: string, rest: string)
    requires Plain(s)
    ensures Scan(State(fields, current, false), s + rest) == Scan(State(fields, current + s, false), rest)
    decreases |s|
  {
    if s == "" {
      assert s + rest == rest && current + s == current;
    } else {
      assert s + rest == [s[0]] + (s[1..] + rest) && (s + rest)[1..] == s[1..] + rest;
      ScanPlain(fields, current + [s[0]], s[1..], rest);
      assert current + [s[0]] + s[1..] == current + s;
    }
  }

  lemma {:induction false} ScanCell(fields: seq<string>, s: string, quoted: bool, rest: string)
    requires (quoted || Plain(s)) && (rest == "" || rest[0] != '"')
    ensures Scan(State(fields, "", false), Cell(s, quoted) + rest) == Scan(State(fields, s, false), rest)
  {
    if quoted {
      ScanQuoted(fields, s, rest);
    } else {
      ScanPlain(fields, "", s, rest);
      assert "" + s == s;
    }
  }

  /** Inside quotes the parser takes in exactly the text, up to a quote that is not doubled. */
  lemma {:induction false} ScanDoubled(fields: seq<string>, current: string, s: string, rest: string)
    requires rest == "" || rest[0] != '"'
    ensures Scan(State(fields, current, true), Doubled(s) + "\"" + rest) == Scan(State(fields, current + s, false), rest)
    decreases |s|
  {
    var t := Doubled(s) + "\"" + rest;
    if s == "" {
      assert t == "\"" + rest && t[1..] == rest;
      assert current + s == current;
    } else {
      var more := Doubled(s[1..]) + "\"" + rest;
      ScanDoubled(fields, current + [s[0]], s[1..], rest);
      assert current + [s[0]] + s[1..] == current + s;
      if s[0] == '"' {
        assert t == "\"\"" + more && t[2..] == more;
        assert current + "\"" == current + [s[0]];
      } else {
        assert t == [s[0]] + more && t[1..] == more;
      }
    }
  }

  lemma {:induction false} ScanQuoted(fields: seq<string>, s: string, rest: string)
    requires rest == "" || rest[0] != '"'
    ensures Scan(State(fields, "", false), Quote(s) + rest) == Scan(State(fields, s, false), rest)
  {
    var t := Quote(s) + rest;
    assert t == "\"" + (Doubled(s) + "\"" + rest) && t[1..] == Doubled(s) + "\"" + rest;
    ScanDoubled(fields, "", s, rest);
    assert "" + s == s;
  }

  function TrimAll(fields: seq<string>): (r: seq<string>)
    ensures |r| == |fields| && forall i :: 0 <= i < |r| ==> r[i] == Trim(fields[i])
  {
    seq(|fields|, i requires 0 <= i < |fields| => Trim(fields[i]))
  }

  /** A cell and a comma add a field. */
  lemma {:induction false} ScanFirst(done: seq<string>, f: string, q: bool, more: string)
    requires q || Plain(f)
    ensures Scan(State(done, "", false), Cell(f, q) + "," + more) == Scan(State(done + [Trim(f)], "", false), more)
  {
    var rest := "," + more;
    assert Cell(f, q) + "," + more == Cell(f, q) + rest;
    ScanCell(done, f, q, rest);
    assert rest[1..] == more;
  }

  lemma {:induction false} ScanLast(done: seq<string>, f: string, q: bool)
    requires q || Plain(f)
    ensures Scan(State(done, "", false), Cell(f, q)) == State(done, f, false)
  {
    ScanCell(done, f, q, "");
    assert Cell(f, q) + "" == Cell(f, q);
  }

  lemma {:induction false} ScanJoined(done: seq<string>, fields: seq<string>, quoted: seq<bool>)
    requires Choice(fields, quoted)
    ensures Finish(Scan(State(done, "", false), Join(fields, quoted))) == Fields(done + TrimAll(fields))
    decreases |fields|
  {
    var f, q := fields[0], quoted[0];
    if |fields| == 1 {
      ScanLast(done, f, q);
      assert TrimAll(fields) == [Trim(f)];
    } else {
      ScanFirst(done, f, q, Join(fields[1..], quoted[1..]));
      ScanJoined(done + [Trim(f)], fields[1..], quoted[1..]);
      assert TrimAll(fields) == [Trim(f)] + TrimAll(fields[1..]);
      assert done + [Trim(f)] + TrimAll(fields[1..]) == done + ([Trim(f)] + TrimAll(fields[1..]));
    }
  }

  /** Writing fields by the RFC, whichever of them are quoted, and reading them back gives them trimmed; so it gives the
      same fields exactly when none of them begins or ends with white space. */
  lemma {:induction false} WriteThenRead(fields: seq<string>, quoted: seq<bool>)
    requires Choice(fields, quoted)
    ensures Finish(Scan(START, Join(fields, quoted))) == Fields(TrimAll(fields))
    ensures Finish(Scan(START, Join(fields, quoted))) == Fields(fields)
            <==> forall i :: 0 <= i < |fields| ==> Trimmed(fields[i])
  {
    ScanJoined([], fields, quoted);
    assert [] + TrimAll(fields) == TrimAll(fields);
    forall i | 0 <= i < |fields|
      ensures Trim(fields[i]) == fields[i] <==> Trimmed(fields[i])
    {
      TrimIsIdentity(fields[i]);
    }
    if TrimAll(fields) == fields {
      forall i | 0 <= i < |fields|
        ensures Trimmed(fields[i])
      {
        assert TrimAll(fields)[i] == fields[i];
      }
    }
  }

  /** A failing input: a quoted blank is read back as the empty field. */
  lemma {:induction false} QuotedBlankIsLost()
    ensures Finish(Scan(START, Join([" "], [true]))) == Fields([""])
  {
    WriteThenRead([" "], [true]);
    assert TrimStart(" ") == TrimStart(" "[1..]) == "";
    assert TrimAll([" "]) == [""];
  }

  // ----- field count

  /** Commas outside quotes, where every quote character opens or closes: a doubled quote does both. */
  function Separators(s: string, quoted: bool): nat {
    if s == "" then 0
    else if s[0] == '"' then Separators(s[1..], !quoted)
    else (if s[0] == ',' && !quoted then 1 else 0) + Separators(s[1..], quoted)
  }

  lemma {:induction false} ScanCounts(st: State, s: string)
    ensures |Scan(st, s).fields| == |st.fields| + Separators(s, st.quoted)
    decreases |s|
  {
    if s != "" {
      if s[0] == '"' && st.quoted && |s| > 1 && s[1] == '"' {
        ScanCounts(st.(current := st.current + "\""), s[2..]);
        assert s[1..][0] == '"' && s[1..][1..] == s[2..];
      } else if s[0] == '"' {
        ScanCounts(st.(quoted := !st.quoted), s[1..]);
      } else if s[0] == ',' && !st.quoted {
        ScanCounts(State(st.fields + [Trim(st.current)], "", false), s[1..]);
      } else {
        ScanCounts(st.(current := st.current + [s[0]]), s[1..]);
      }
    }
  }

  function Quotes(s: string): nat {
    if s == "" then 0 else (if s[0] == '"' then 1 else 0) + Quotes(s[1..])
  }

  lemma {:induction false} ScanEndsQuoted(st: State, s: string)
    ensures Scan(st, s).quoted <==> (st.quoted <==> Quotes(s) % 2 == 0)
    decreases |s|
  {
    if s != "" {
      if s[0] == '"' && st.quoted && |s| > 1 && s[1] == '"' {
        ScanEndsQuoted(st.(current := st.current + "\""), s[2..]);
        assert s[1..][0] == '"' && s[1..][1..] == s[2..];
      } else if s[0] == '"' {
        ScanEndsQuoted(st.(quoted := !st.quoted), s[1..]);
      } else if s[0] == ',' && !st.quoted {
        ScanEndsQuoted(State(st.fields + [Trim(st.current)], "", false), s[1..]);
      } else {
        ScanEndsQuoted(st.(current := st.current + [s[0]]), s[1..]);
      }
    }
  }

  /** A line fails exactly when it has an odd number of quote characters; otherwise it has one field more than
      commas outside quotes. */
  lemma {:induction false} FieldCount(line: string)
    ensures Finish(Scan(START, line)).Unterminated? <==> Quotes(line) % 2 == 1
    ensures var r := Finish(Scan(START, line)); r.Fields? ==> |r.fields| == 1 + Separators(line, false)
  {
    ScanCounts(START, line);
    ScanEndsQuoted(START, line);
  }
}
