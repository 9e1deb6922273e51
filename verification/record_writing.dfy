/** `RecordWriter` and its helpers: a buffer of CSV rows with the header row
    captured from the first record after each clear, an inspector dictionary,
    and an automatic partial flush when the record count reaches
    `maxresultrows`. Also `ObjectView`, the attribute view over nested
    dictionaries. */
module RecordWriting {
  import opened Common
  import opened Metadata
  import opened MultiValue
  import Csv
  import opened Framing

  // ---------------------------------------------------- the output buffer

  /** A `cStringIO` output buffer: `data` is its whole contents and `pos` the
      write position. Writing overwrites from `pos` on and extends the
      contents when it runs past their end. */
  datatype StringBuffer = StringBuffer(data: string, pos: nat) {
    predicate Valid() {
      pos <= |data|
    }

    function Write(s: string): (r: StringBuffer)
      requires Valid()
      ensures r.Valid() && r.pos == pos + |s|
      ensures r.data[..pos] == data[..pos] && r.data[pos..pos + |s|] == s
      ensures |r.data| == if pos + |s| <= |data| then |data| else pos + |s|
      ensures pos + |s| < |data| ==> r.data[pos + |s|..] == data[pos + |s|..]
    {
      StringBuffer(data[..pos] + s + (if pos + |s| < |data| then data[pos + |s|..] else ""), pos + |s|)
    }

    /** `reset()`: rewinds the write position and keeps the contents. */
    function Reset(): (r: StringBuffer)
      ensures r.pos == 0 && r.data == data
    {
      StringBuffer(data, 0)
    }

    /** `truncate(0)` after the rewind: what a clear of the buffer needs. */
    function Truncate(): (r: StringBuffer)
      ensures r.Valid() && r.pos == 0 && r.data == ""
    {
      StringBuffer("", 0)
    }

    function Tell(): nat { pos }

    function GetValue(): string { data }
  }

  /** A buffer written from its end grows by exactly what is written. */
  lemma WriteAtEndAppends(b: StringBuffer, s: string)
    requires b.Valid() && b.pos == |b.data|
    ensures b.Write(s) == StringBuffer(b.data + s, |b.data| + |s|)
  {
    assert b.data[..b.pos] == b.data;
  }

  /** After `reset()`, writing fewer characters than the buffer holds leaves
      the old contents past them in place: the next `getvalue()` returns the
      new text followed by a stale tail. */
  lemma ResetKeepsStaleTail(b: StringBuffer, s: string)
    requires b.Valid() && |s| < |b.data|
    ensures b.Reset().Write(s).GetValue() == s + b.data[|s|..]
  {
    assert b.data[..0] == "";
  }

  /** A concrete case: one 10-character row flushed, then one 5-character row
      written; the second body carries the last 5 characters of the first. */
  lemma StaleTailExample()
    ensures StringBuffer("", 0).Write("aaaa,bbb\r\n").Reset().Write("c,d\r\n").GetValue() == "c,d\r\nbbb\r\n"
  {
    var b := StringBuffer("", 0).Write("aaaa,bbb\r\n");
    assert b.data == "aaaa,bbb\r\n";
    ResetKeepsStaleTail(b, "c,d\r\n");
    assert b.data[5..] == "bbb\r\n";
  }

  /** Two writes in a row put down the same text as one write of both. */
  lemma WriteTwice(b: StringBuffer, s: string, t: string)
    requires b.Valid()
    ensures b.Write(s).Write(t) == b.Write(s + t)
  {
    var l := b.Write(s).Write(t);
    var r := b.Write(s + t);
    assert |l.data| == |r.data|;
    assert l.data[..b.pos] == r.data[..b.pos];
    assert l.data[b.pos..b.pos + |s + t|] == s + t == r.data[b.pos..b.pos + |s + t|] by {
      assert l.data[b.pos..b.pos + |s|] == s;
      assert l.data[b.pos + |s|..b.pos + |s + t|] == t;
    }
    if b.pos + |s + t| < |b.data| {
      assert l.data[b.pos + |s + t|..] == r.data[b.pos + |s + t|..];
    }
    assert l.data == l.data[..b.pos] + l.data[b.pos..b.pos + |s + t|] + l.data[b.pos + |s + t|..];
    assert r.data == r.data[..b.pos] + r.data[b.pos..b.pos + |s + t|] + r.data[b.pos + |s + t|..];
  }

  /** A buffer emptied by `Truncate` returns exactly what is written to it
      afterwards, whatever it held before. */
  lemma TruncateThenWrite(b: StringBuffer, s: string, t: string)
    ensures b.Truncate().Write(s).GetValue() == s
    ensures b.Truncate().Write(s).Write(t).GetValue() == s + t
  {
    var e := b.Truncate();
    assert e.data[..0] == "";
    WriteAtEndAppends(e, s);
    WriteAtEndAppends(e.Write(s), t);
  }

  // ------------------------------------------------------------ the rows

  /** The header row of a record: each key followed by `'__mv_' + key`. */
  function HeaderCells(keys: seq<string>): (r: seq<string>)
    ensures |r| == 2 * |keys|
  {
    if |keys| == 0 then [] else [keys[0], "__mv_" + keys[0]] + HeaderCells(keys[1..])
  }

  /** The data row of a record: each value encoded as a plain cell and a
      multi-value cell. */
  function ValueCells(record: Pairs<FieldValue>): (r: seq<Option<string>>)
    ensures |r| == 2 * |record|
  {
    if |record| == 0 then []
    else
      var cells := EncodeValue(record[0].1);
      [cells.0, cells.1] + ValueCells(record[1..])
  }

  /** Field by field, the header row holds each key and its companion name in
      record order. */
  lemma {:induction false} HeaderCellsAt(keys: seq<string>)
    ensures forall k :: 0 <= k < |keys| ==>
      HeaderCells(keys)[2 * k] == keys[k] && HeaderCells(keys)[2 * k + 1] == "__mv_" + keys[k]
  {
    if |keys| > 0 {
      HeaderCellsAt(keys[1..]);
      var h := HeaderCells(keys);
      forall k | 0 <= k < |keys|
        ensures h[2 * k] == keys[k] && h[2 * k + 1] == "__mv_" + keys[k]
      {
        if k > 0 {
          assert h[2 * k] == HeaderCells(keys[1..])[2 * (k - 1)];
          assert h[2 * k + 1] == HeaderCells(keys[1..])[2 * (k - 1) + 1];
        }
      }
    }
  }

  /** Field by field, a data row holds the two encoded cells of each value in
      record order. */
  lemma {:induction false} ValueCellsAt(record: Pairs<FieldValue>)
    ensures forall k :: 0 <= k < |record| ==>
      ValueCells(record)[2 * k] == EncodeValue(record[k].1).0 &&
      ValueCells(record)[2 * k + 1] == EncodeValue(record[k].1).1
  {
    if |record| > 0 {
      ValueCellsAt(record[1..]);
      var v := ValueCells(record);
      forall k | 0 <= k < |record|
        ensures v[2 * k] == EncodeValue(record[k].1).0 && v[2 * k + 1] == EncodeValue(record[k].1).1
      {
        if k > 0 {
          assert v[2 * k] == ValueCells(record[1..])[2 * (k - 1)];
          assert v[2 * k + 1] == ValueCells(record[1..])[2 * (k - 1) + 1];
        }
      }
    }
  }

  function Present(cells: seq<string>): (r: seq<Option<string>>)
    ensures |r| == |cells| && forall k :: 0 <= k < |cells| ==> r[k] == Some(cells[k])
  {
    if |cells| == 0 then [] else [Some(cells[0])] + Present(cells[1..])
  }

  // -------------------------------------------------------- chunk output

  /** The metadata segment `_write_chunk` produces: `''` for an empty
      dictionary, otherwise the serialised dictionary without its `None`
      entries. */
  function MetadataText(metadata: Pairs<Json>, dumps: Json -> string): string {
    if |metadata| == 0 then "" else dumps(JObject(DropNone(metadata)))
  }

  /** What `RecordWriter._write_chunk` writes: nothing when both segments are
      empty, one chunk otherwise. */
  function ChunkOutput(metadata: Pairs<Json>, body: string, dumps: Json -> string): string {
    var text := MetadataText(metadata, dumps);
    if |text| == 0 && |body| == 0 then "" else ChunkText(text, body)
  }

  /** `RecordWriter._write_chunk(ofile, metadata, body)`. */
  method WriteInspectorChunk(ofile: OutputStream, metadata: Pairs<Json>, body: string, dumps: Json -> string)
    modifies ofile
    ensures ofile.text == old(ofile.text) + ChunkOutput(metadata, body, dumps)
  {
    var text := "";
    if |metadata| > 0 {
      text := dumps(JObject(DropNone(metadata)));
    }
    if |text| == 0 && |body| == 0 {
      return;
    }
    ghost var start := ofile.text;
    ofile.Write(Header(|text|, |body|));
    ofile.Write(text);
    ofile.Write(body);
    assert ofile.text == start + (Header(|text|, |body|) + text + body);
  }

  /** The metadata of a flush: the inspector when it is not empty, and the two
      flags, with absent values as `None`. */
  function FlushMetadata(inspector: Pairs<Json>, finished: Option<bool>, partial: Option<bool>): (r: Pairs<Json>)
    ensures Keys(r) == ["inspector", "finished", "partial"]
  {
    [("inspector", if |inspector| > 0 then JObject(inspector) else JNull),
     ("finished", OptBool(finished)),
     ("partial", OptBool(partial))]
  }

  /** The entry of an optional flag that survives the `None` filter. */
  function FlagEntry(name: string, flag: Option<bool>): Pairs<Json> {
    if flag.Some? then [(name, JBool(flag.value))] else []
  }

  /** `None` entries never reach the serialiser: the inspector appears only
      when it is not empty, and each flag only when it was given, in that
      order. */
  lemma FlushMetadataFiltered(inspector: Pairs<Json>, finished: Option<bool>, partial: Option<bool>)
    ensures DropNone(FlushMetadata(inspector, finished, partial)) ==
      (if |inspector| > 0 then [("inspector", JObject(inspector))] else []) +
      FlagEntry("finished", finished) + FlagEntry("partial", partial)
  {
    var md := FlushMetadata(inspector, finished, partial);
    assert md[2..][1..] == [];
    assert DropNone(md[2..]) == FlagEntry("partial", partial);
    assert md[1..][1..] == md[2..];
    assert DropNone(md[1..]) == FlagEntry("finished", finished) + FlagEntry("partial", partial);
  }

  /** The chunk `flush(finished, partial)` writes: nothing at all when the
      buffer position is 0, the inspector is empty and `finished` is `False`;
      otherwise the chunk of the flush metadata and the buffer contents. */
  predicate FlushSkips(buffer: StringBuffer, inspector: Pairs<Json>, finished: Option<bool>) {
    buffer.Tell() == 0 && |inspector| == 0 && finished == Some(false)
  }

  // ------------------------------------------------------ the record writer

  class RecordWriter {
    const maxResultRows: int
    const ofile: OutputStream
    const dumps: Json -> string
    var fieldnames: Option<seq<string>>
    var inspector: Pairs<Json>
    var recordCount: nat
    var buffer: StringBuffer

    /** The write position is within the buffer, records have been written
        only under a captured header row, and the count is reset before it
        can stay at `maxresultrows`. */
    predicate Valid()
      reads this
    {
      buffer.Valid() &&
      (recordCount > 0 ==> fieldnames.Some?) &&
      (recordCount == 0 || recordCount < maxResultRows)
    }

    constructor(ofile: OutputStream, maxResultRows: int, dumps: Json -> string)
      ensures Valid()
      ensures this.ofile == ofile && this.maxResultRows == maxResultRows && this.dumps == dumps
      ensures fieldnames == None && inspector == [] && recordCount == 0 && buffer == StringBuffer("", 0)
    {
      this.maxResultRows := maxResultRows;
      this.ofile := ofile;
      this.dumps := dumps;
      fieldnames := None;
      inspector := [];
      recordCount := 0;
      buffer := StringBuffer("", 0);
    }

    /** `_clear()`: the buffer is rewound, not emptied, so what it held stays
        behind the write position (`ResetKeepsStaleTail`). */
    method Clear()
      requires buffer.Valid()
      modifies this
      ensures Valid()
      ensures buffer == old(buffer).Reset()
      ensures fieldnames == None && inspector == [] && recordCount == 0
    {
      buffer := buffer.Reset();
      fieldnames := None;
      inspector := [];
      recordCount := 0;
    }

    /** `flush(finished, partial)`. */
    method Flush(finished: Option<bool>, partial: Option<bool>)
      requires Valid()
      modifies this, ofile
      ensures Valid()
      ensures FlushSkips(old(buffer), old(inspector), finished) ==>
        ofile.text == old(ofile.text) && buffer == old(buffer) && fieldnames == old(fieldnames) &&
        inspector == old(inspector) && recordCount == old(recordCount)
      ensures !FlushSkips(old(buffer), old(inspector), finished) ==>
        ofile.text == old(ofile.text) + ChunkOutput(FlushMetadata(old(inspector), finished, partial), old(buffer).GetValue(), dumps) &&
        buffer == old(buffer).Reset() && fieldnames == None && inspector == [] && recordCount == 0
    {
      if buffer.Tell() == 0 && |inspector| == 0 && finished == Some(false) {
        return;
      }
      WriteInspectorChunk(ofile, FlushMetadata(inspector, finished, partial), buffer.GetValue(), dumps);
      Clear();
    }

    /** `write_record(record)`: the header row first when none has been
        captured since the last clear, then one data row, both written at the
        buffer's position; when the count reaches `maxresultrows` a partial
        flush follows. */
    method WriteRecord(record: Pairs<FieldValue>)
      requires Valid()
      modifies this, ofile
      ensures Valid()
      ensures var header := HeaderCells(Keys(record));
        var headed := if old(fieldnames).None? then old(buffer).Write(Csv.FormatRow(Present(header))) else old(buffer);
        var written := headed.Write(Csv.FormatRow(ValueCells(record)));
        if old(recordCount) + 1 >= maxResultRows then
          ofile.text == old(ofile.text) + ChunkOutput(FlushMetadata(old(inspector), None, Some(true)), written.GetValue(), dumps) &&
          buffer == written.Reset() && fieldnames == None && inspector == [] && recordCount == 0
        else
          ofile.text == old(ofile.text) && buffer == written &&
          recordCount == old(recordCount) + 1 && inspector == old(inspector) &&
          fieldnames == (if old(fieldnames).None? then Some(header) else old(fieldnames))
    {
      if fieldnames.None? {
        var header := HeaderCells(Keys(record));
        fieldnames := Some(header);
        buffer := buffer.Write(Csv.FormatRow(Present(header)));
      }
      buffer := buffer.Write(Csv.FormatRow(ValueCells(record)));
      recordCount := recordCount + 1;
      if recordCount >= maxResultRows {
        WriteInspectorChunk(ofile, FlushMetadata(inspector, None, Some(true)), buffer.GetValue(), dumps);
        Clear();
      }
    }

    /** `write_metric(name, value)`: only the inspector changes. */
    method WriteMetric(name: string, value: Json)
      requires Valid()
      modifies this
      ensures Valid()
      ensures inspector == Put(old(inspector), "metric." + name, value)
      ensures buffer == old(buffer) && recordCount == old(recordCount) && fieldnames == old(fieldnames)
    {
      inspector := Put(inspector, "metric." + name, value);
    }

    /** `write_message(message_type, message_text, *args)`: the message is
        appended to the inspector's `messages` list when there is one, and is
        lost when there is none (it goes to a fresh list nobody keeps). A
        `messages` entry that is not a list has no `append`. `format` stands
        for `str.format` with the call's arguments. */
    method WriteMessage(messageType: string, messageText: string, format: string -> Result<string>) returns (o: Outcome)
      requires Valid()
      modifies this
      ensures Valid()
      ensures buffer == old(buffer) && recordCount == old(recordCount) && fieldnames == old(fieldnames)
      ensures var current := Lookup(old(inspector), "messages");
        if current.Some? && !current.value.JList? then
          o.Fail? && o.fault.AttributeError? && inspector == old(inspector)
        else if format(messageText).Err? then
          o == Fail(format(messageText).fault) && inspector == old(inspector)
        else if current.None? then
          o == Pass && inspector == old(inspector)
        else
          o == Pass &&
          inspector == Put(old(inspector), "messages",
            JList(current.value.items + [JList([JStr(messageType), JStr(format(messageText).value)])]))
    {
      var current := Lookup(inspector, "messages");
      if current.Some? && !current.value.JList? {
        return Fail(AttributeError("object has no attribute 'append'"));
      }
      var text := format(messageText);
      if text.Err? {
        return Fail(text.fault);
      }
      if current.Some? {
        inspector := Put(inspector, "messages",
          JList(current.value.items + [JList([JStr(messageType), JStr(text.value)])]));
      }
      return Pass;
    }

    /** `write_metadata(configuration)`, where `rendered` is what
        `configuration.render()` yields: one chunk with an empty body, then a
        newline, then a clear. */
    method WriteMetadata(rendered: Pairs<Json>)
      requires Valid()
      modifies this, ofile
      ensures Valid()
      ensures var metadata := rendered + [("inspector", if |old(inspector)| > 0 then JObject(old(inspector)) else JNull)];
        ofile.text == old(ofile.text) + ChunkOutput(metadata, "", dumps) + "\n"
      ensures buffer == old(buffer).Reset() && fieldnames == None && inspector == [] && recordCount == 0
    {
      var metadata := rendered + [("inspector", if |inspector| > 0 then JObject(inspector) else JNull)];
      WriteInspectorChunk(ofile, metadata, "", dumps);
      ofile.Write("\n");
      Clear();
    }
  }

  /** The first record after a clear, when it does not fill the buffer,
      leaves exactly a header row and a data row behind, both readable back
      under the dialect: the header lists each key and its companion name,
      the data row the two encoded cells of each value. */
  lemma FirstRecordRows(record: Pairs<FieldValue>)
    ensures var header := HeaderCells(Keys(record));
      var b := StringBuffer("", 0).Write(Csv.FormatRow(Present(header))).Write(Csv.FormatRow(ValueCells(record)));
      b.GetValue() == Csv.FormatRow(Present(header)) + Csv.FormatRow(ValueCells(record)) &&
      Csv.ParseRecord(Csv.FormatRow(Present(header))) == header &&
      Csv.ParseRecord(Csv.FormatRow(ValueCells(record))) == Csv.CellTexts(ValueCells(record))
  {
    var header := HeaderCells(Keys(record));
    var e := StringBuffer("", 0);
    WriteAtEndAppends(e, Csv.FormatRow(Present(header)));
    WriteAtEndAppends(e.Write(Csv.FormatRow(Present(header))), Csv.FormatRow(ValueCells(record)));
    assert "" + Csv.FormatRow(Present(header)) == Csv.FormatRow(Present(header));
    Csv.RowRoundTrip(Present(header));
    Csv.RowRoundTrip(ValueCells(record));
    assert Csv.CellTexts(Present(header)) == header;
  }

  /** The first record after a clear goes to the start of the rewound
      buffer: its header and data rows come first, followed by whatever the
      previous chunk left past them, and the next flush sends that stale
      tail too. */
  lemma {:induction false} RowsAfterClear(b: StringBuffer, record: Pairs<FieldValue>)
    requires b.Valid()
    ensures var rows := Csv.FormatRow(Present(HeaderCells(Keys(record)))) + Csv.FormatRow(ValueCells(record));
      b.Reset().Write(Csv.FormatRow(Present(HeaderCells(Keys(record))))).Write(Csv.FormatRow(ValueCells(record))).GetValue() ==
        rows + (if |rows| < |b.data| then b.data[|rows|..] else "")
  {
    var header := Csv.FormatRow(Present(HeaderCells(Keys(record))));
    var row := Csv.FormatRow(ValueCells(record));
    var rows := header + row;
    WriteTwice(b.Reset(), header, row);
    if |rows| < |b.data| {
      ResetKeepsStaleTail(b, rows);
    } else {
      var w := b.Reset().Write(rows);
      assert w.data[0..|rows|] == rows;
      assert |w.data| == |rows|;
      assert rows + "" == rows;
    }
  }

  /** After a partial flush, a flush with `finished=True` is not skipped
      although the write position is 0, and what it sends is the whole
      previous contents; with `finished=False` and an empty inspector it is
      skipped. */
  lemma FinishedFlushAfterClear(b: StringBuffer)
    ensures !FlushSkips(b.Reset(), [], Some(true)) && b.Reset().GetValue() == b.GetValue()
    ensures FlushSkips(b.Reset(), [], Some(false))
  {
  }

  // ---------------------------------------------------------- ObjectView

  /** A member of an `ObjectView`: a plain value, or a view over a nested
      dictionary. */
  datatype Member = Plain(value: Json) | View(members: seq<(string, Member)>)

  /** The member `ObjectView` makes of a value: every dictionary, at any
      depth, is replaced in its parent by a view of it. */
  function ViewValue(j: Json): Member
    decreases j
  {
    if j.JObject? then
      View(seq(|j.fields|, k requires 0 <= k < |j.fields| => (j.fields[k].0, ViewValue(j.fields[k].1))))
    else Plain(j)
  }

  /** No member of a view, nor of the views nested in it, is a plain
      dictionary. Lists are not looked into, so a dictionary inside a list
      stays plain, as in the source. */
  predicate NoPlainDicts(m: Member)
    decreases m
  {
    match m
    case Plain(v) => !v.JObject?
    case View(ms) => forall k :: 0 <= k < |ms| ==> NoPlainDicts(ms[k].1)
  }

  /** The value a member stands for. */
  function Unview(m: Member): Json
    decreases m
  {
    match m
    case Plain(v) => v
    case View(ms) => JObject(seq(|ms|, k requires 0 <= k < |ms| => (ms[k].0, Unview(ms[k].1))))
  }

  /** `ObjectView(d)` keeps every key in place, leaves no dictionary
      unwrapped, and changes no value: unwrapping it gives back `d`. */
  lemma {:induction false} ViewFaithful(j: Json)
    ensures NoPlainDicts(ViewValue(j))
    ensures Unview(ViewValue(j)) == j
    ensures j.JObject? ==>
              ViewValue(j).View? && |ViewValue(j).members| == |j.fields| &&
              forall k :: 0 <= k < |j.fields| ==> ViewValue(j).members[k].0 == j.fields[k].0
    decreases j
  {
    if j.JObject? {
      var ms := ViewValue(j).members;
      forall k | 0 <= k < |j.fields|
        ensures NoPlainDicts(ms[k].1) && Unview(ms[k].1) == j.fields[k].1
      {
        ViewFaithful(j.fields[k].1);
      }
      assert Unview(ViewValue(j)).fields == j.fields;
    }
  }
}
