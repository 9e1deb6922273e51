/** The row writer of `CsvDialect`: `,` between fields, `"` as the quote
    character with doubling, `\r\n` after every row, and minimal quoting (a
    field is quoted only when it holds the delimiter, the quote character or
    a line-terminator character). `ParseRecord` is the matching reading rule
    of the same dialect, given as the writer's reference partner. */
module Csv {
  import opened Common

  /** Minimal quoting: the characters that force a field into quotes. */
  predicate NeedsQuotes(s: string) {
    Contains(s, ',') || Contains(s, '"') || Contains(s, '\r') || Contains(s, '\n')
  }

  /** Every quote character doubled (`doublequote = True`). */
  function DoubleQuotes(s: string): (r: string)
    ensures |r| >= |s|
    ensures !Contains(s, '"') ==> r == s
  {
    if |s| == 0 then ""
    else
      (if s[0] == '"' then "\"\"" else [s[0]]) + DoubleQuotes(s[1..])
  }

  function FormatField(s: string): string {
    if NeedsQuotes(s) then "\"" + DoubleQuotes(s) + "\"" else s
  }

  /** A `None` cell is written as an empty field. */
  function CellText(c: Option<string>): string {
    c.GetOr("")
  }

  function CellTexts(cells: seq<Option<string>>): (r: seq<string>)
    ensures |r| == |cells|
    ensures forall k :: 0 <= k < |cells| ==> r[k] == CellText(cells[k])
  {
    if |cells| == 0 then [] else [CellText(cells[0])] + CellTexts(cells[1..])
  }

  function FormatAll(texts: seq<string>): (r: seq<string>)
    ensures |r| == |texts|
    ensures forall k :: 0 <= k < |texts| ==> r[k] == FormatField(texts[k])
  {
    if |texts| == 0 then [] else [FormatField(texts[0])] + FormatAll(texts[1..])
  }

  /** `writer.writerow(cells)`: a row whose only field is empty is written as
      `""`, so that it is not mistaken for a row with no fields. */
  function FormatRow(cells: seq<Option<string>>): string {
    var texts := CellTexts(cells);
    (if |texts| == 1 && texts[0] == "" then "\"\"" else Join(",", FormatAll(texts))) + "\r\n"
  }

  // -------------------------------------------------- the reading rules

  /** An unquoted run up to the next delimiter. */
  function Unquoted(s: string): (r: (string, string))
    ensures |r.1| <= |s|
    ensures r.1 == "" || r.1[0] == ','
  {
    if |s| == 0 || s[0] == ',' then ("", s)
    else
      var t := Unquoted(s[1..]);
      ([s[0]] + t.0, t.1)
  }

  /** The inside of a quoted field, after its opening quote: `""` stands for
      one quote, a lone quote closes the field. */
  function Quoted(s: string): (r: (string, string))
    ensures |r.1| <= |s|
    ensures r.1 == "" || r.1[0] == ','
  {
    if |s| == 0 then ("", "")
    else if s[0] == '"' then
      if |s| > 1 && s[1] == '"' then
        var t := Quoted(s[2..]);
        ("\"" + t.0, t.1)
      else Unquoted(s[1..])
    else
      var t := Quoted(s[1..]);
      ([s[0]] + t.0, t.1)
  }

  function Field(s: string): (r: (string, string))
    ensures |r.1| <= |s|
    ensures r.1 == "" || r.1[0] == ','
  {
    if |s| > 0 && s[0] == '"' then Quoted(s[1..]) else Unquoted(s)
  }

  function Fields(s: string): (r: seq<string>)
    ensures |r| > 0
    decreases |s|
  {
    var (f, rest) := Field(s);
    if |rest| == 0 then [f] else [f] + Fields(rest[1..])
  }

  /** The fields of one record, read back under the dialect: an empty line is
      a record with no fields. */
  function ParseRecord(line: string): seq<string> {
    var body := if EndsWith(line, "\r\n") then line[..|line| - 2] else line;
    if |body| == 0 then [] else Fields(body)
  }

  // --------------------------------------------------------- round trip

  lemma {:induction false} UnquotedRoundTrip(s: string, rest: string)
    requires !Contains(s, ',')
    requires rest == "" || rest[0] == ','
    ensures Unquoted(s + rest) == (s, rest)
    decreases |s|
  {
    if |s| == 0 {
      assert s + rest == rest;
    } else {
      assert (s + rest)[0] == s[0];
      assert (s + rest)[1..] == s[1..] + rest;
      assert !Contains(s[1..], ',') by {
        forall k | 0 <= k < |s[1..]| ensures s[1..][k] != ',' { assert s[1..][k] == s[k + 1]; }
      }
      UnquotedRoundTrip(s[1..], rest);
      assert [s[0]] + s[1..] == s;
    }
  }

  lemma {:induction false} QuotedRoundTrip(s: string, rest: string)
    requires rest == "" || rest[0] == ','
    ensures Quoted(DoubleQuotes(s) + "\"" + rest) == (s, rest)
    decreases |s|
  {
    var t := DoubleQuotes(s) + "\"" + rest;
    if |s| == 0 {
      assert t == "\"" + rest;
      assert t[1..] == rest;
      assert Unquoted(rest) == ("", rest);
    } else if s[0] == '"' {
      assert t == "\"\"" + (DoubleQuotes(s[1..]) + "\"" + rest);
      assert t[2..] == DoubleQuotes(s[1..]) + "\"" + rest;
      QuotedRoundTrip(s[1..], rest);
      assert "\"" + s[1..] == s;
    } else {
      assert t == [s[0]] + (DoubleQuotes(s[1..]) + "\"" + rest);
      assert t[1..] == DoubleQuotes(s[1..]) + "\"" + rest;
      QuotedRoundTrip(s[1..], rest);
      assert [s[0]] + s[1..] == s;
    }
  }

  /** A formatted field followed by nothing or by a delimiter reads back as
      the field itself. */
  lemma FieldRoundTrip(s: string, rest: string)
    requires rest == "" || rest[0] == ','
    ensures Field(FormatField(s) + rest) == (s, rest)
  {
    if NeedsQuotes(s) {
      assert FormatField(s) + rest == "\"" + (DoubleQuotes(s) + "\"" + rest);
      QuotedFieldRoundTrip(s, rest);
    } else {
      PlainFieldRoundTrip(s, rest);
    }
  }

  lemma QuotedFieldRoundTrip(s: string, rest: string)
    requires rest == "" || rest[0] == ','
    ensures Field("\"" + (DoubleQuotes(s) + "\"" + rest)) == (s, rest)
  {
    var u := DoubleQuotes(s) + "\"" + rest;
    var t := "\"" + u;
    assert t[0] == '"';
    assert t[1..] == u;
    assert Field(t) == Quoted(u);
    QuotedRoundTrip(s, rest);
  }

  lemma PlainFieldRoundTrip(s: string, rest: string)
    requires !NeedsQuotes(s)
    requires rest == "" || rest[0] == ','
    ensures Field(s + rest) == (s, rest)
  {
    var t := s + rest;
    UnquotedRoundTrip(s, rest);
    if |s| > 0 {
      assert t[0] == s[0];
      assert s[0] != '"' by { assert !Contains(s, '"'); }
    } else {
      assert t == rest;
    }
  }

  lemma {:induction false} FieldsRoundTrip(texts: seq<string>)
    requires |texts| > 0
    ensures Fields(Join(",", FormatAll(texts))) == texts
    decreases |texts|
  {
    var f := FormatAll(texts);
    if |texts| == 1 {
      assert Join(",", f) == f[0] == FormatField(texts[0]);
      FieldRoundTrip(texts[0], "");
      assert FormatField(texts[0]) + "" == FormatField(texts[0]);
    } else {
      var rest := "," + Join(",", FormatAll(texts[1..]));
      assert f[1..] == FormatAll(texts[1..]);
      assert Join(",", f) == FormatField(texts[0]) + rest;
      FieldRoundTrip(texts[0], rest);
      assert rest[1..] == Join(",", FormatAll(texts[1..]));
      FieldsRoundTrip(texts[1..]);
      assert [texts[0]] + texts[1..] == texts;
    }
  }

  /** Every row the writer emits reads back as the row's cells, with `None`
      read as an empty field: no row, however its fields are made, is lost or
      split. */
  lemma RowRoundTrip(cells: seq<Option<string>>)
    ensures ParseRecord(FormatRow(cells)) == CellTexts(cells)
  {
    var texts := CellTexts(cells);
    var line := FormatRow(cells);
    var body := if |texts| == 1 && texts[0] == "" then "\"\"" else Join(",", FormatAll(texts));
    assert line == body + "\r\n";
    assert EndsWith(line, "\r\n") && line[..|line| - 2] == body;
    if |texts| == 1 && texts[0] == "" {
      assert Fields(body) == [""] by {
        assert Field(body) == Quoted("\"");
        assert Quoted("\"") == Unquoted("");
      }
    } else if |texts| > 0 {
      FieldsRoundTrip(texts);
      if |texts| == 1 {
        assert body == FormatField(texts[0]);
        assert |body| > 0;
      } else {
        assert FormatAll(texts)[1..] == FormatAll(texts[1..]);
        assert body == FormatField(texts[0]) + "," + Join(",", FormatAll(texts[1..]));
      }
    }
  }
}
