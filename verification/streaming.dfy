/** `StreamingCommand._execute`: read a chunk, turn its body into records,
    pass them through the command's `stream`, and write one chunk with the
    resulting rows, until the reader returns nothing. */
module Streaming {
  import opened Common
  import opened Metadata
  import opened MultiValue
  import Csv
  import opened Framing
  import Records
  import opened RecordWriting

  /** A record the command yields: field name to value, in field order. */
  type OutRecord = Pairs<FieldValue>

  function HeaderRow(r: OutRecord): string {
    Csv.FormatRow(Present(HeaderCells(Keys(r))))
  }

  /** The data rows of the yielded records, in order. */
  function Rows(out: seq<OutRecord>): string {
    if |out| == 0 then "" else Rows(out[..|out| - 1]) + Csv.FormatRow(ValueCells(out[|out| - 1]))
  }

  /** The body of an output chunk: the header row of the first yielded record,
      then one row per record; nothing at all when nothing is yielded. */
  function OutputBody(out: seq<OutRecord>): (r: string)
    ensures r == "" <==> |out| == 0
    ensures |out| > 0 ==> r == HeaderRow(out[0]) + Rows(out)
  {
    if |out| == 0 then "" else HeaderRow(out[0]) + Rows(out)
  }

  /** What the loop relies on: the metadata parser, the CSV reader, the
      command's `stream`, the serialiser, and two attributes the loop reads
      from the command itself. `finished` is the command's `finished`
      attribute, `None` when it has none; `encodesValues` says whether it has
      an `_encode_value`, taken to be the record writer's. `SearchCommand`
      and `StreamingCommand` define neither. */
  datatype Env = Env(
    parse: string -> Option<Json>,
    parseCsv: string -> seq<seq<string>>,
    stream: seq<Records.Record> -> seq<OutRecord>,
    dumps: Json -> string,
    finished: Option<bool>,
    encodesValues: bool)

  const NoEncoderFault := AttributeError("object has no attribute '_encode_value'")
  const NoFinishedFault := AttributeError("object has no attribute 'finished'")

  /** Some yielded record has a field, so encoding its row calls
      `_encode_value`. */
  predicate HasField(out: seq<OutRecord>) {
    exists k :: 0 <= k < |out| && |out[k]| > 0
  }

  /** The output metadata: `{'finished': True}` when finished, else `None`. */
  function OutputMetadata(finished: bool): (m: Json)
    ensures Truthy(m) <==> finished
  {
    if finished then JObject([("finished", JBool(true))]) else JNull
  }

  /** The text one input chunk produces, and whether processing goes on.
      Records that cannot be built stop with their fault before anything is
      written, and so does a missing `_encode_value` (at the first record
      with a field) or a missing `finished`; metadata `None` gets the header
      out and then faults. */
  function ChunkOutput(c: Chunk, env: Env): (string, Outcome) {
    var records := Records.Records(env.parseCsv(c.body));
    if records.Err? then ("", Fail(records.fault))
    else
      var out := env.stream(records.value);
      if !env.encodesValues && HasField(out) then ("", Fail(NoEncoderFault))
      else if env.finished.None? then ("", Fail(NoFinishedFault))
      else
        var body := OutputBody(out);
        if env.finished.value then (ChunkText(env.dumps(OutputMetadata(true)), body), Pass)
        else (Header(0, |body|), Fail(WriteNoneFault))
  }

  /** The whole output of the loop from input position `i` on. */
  function RunFrom(s: string, i: nat, env: Env): (string, Outcome)
    requires i <= |s|
    decreases |s| - i
  {
    var next := NextChunk(s, i, env.parse);
    if next.0.None? then ("", Pass)
    else
      var (text, o) := ChunkOutput(next.0.value, env);
      if o.Fail? then (text, o)
      else
        var rest := RunFrom(s, next.1, env);
        (text + rest.0, rest.1)
  }

  /** The rows of one output chunk, written to a fresh `StringIO`: the header
      row comes from the first record, then one row per record. Without an
      `_encode_value` the first record with a field faults. */
  method WriteRows(out: seq<OutRecord>, encodesValues: bool) returns (body: string, o: Outcome)
    ensures o == if !encodesValues && HasField(out) then Fail(NoEncoderFault) else Pass
    ensures o.Pass? ==> body == OutputBody(out)
  {
    var buffer := StringBuffer("", 0);
    var keys: Option<seq<string>> := None;
    var recordCount := 0;
    assert out[..0] == [];
    while recordCount < |out|
      invariant recordCount <= |out|
      invariant buffer.pos == |buffer.data| && buffer.data == OutputBody(out[..recordCount])
      invariant keys.None? <==> recordCount == 0
      invariant !encodesValues ==> !HasField(out[..recordCount])
    {
      var record := out[recordCount];
      if !encodesValues && |record| > 0 {
        // the header row may already be in the buffer; the buffer is dropped
        HasFieldStep(out, recordCount);
        return "", Fail(NoEncoderFault);
      }
      HasFieldStep(out, recordCount);
      BodyStep(out, recordCount);
      ghost var before := buffer.data;
      ghost var header := if keys.None? then HeaderRow(record) else "";
      if keys.None? {
        keys := Some(HeaderCells(Keys(record)));
        WriteAtEndAppends(buffer, Csv.FormatRow(Present(keys.value)));
        buffer := buffer.Write(Csv.FormatRow(Present(keys.value)));
      }
      assert buffer.pos == |buffer.data| && buffer.data == before + header;
      WriteAtEndAppends(buffer, Csv.FormatRow(ValueCells(record)));
      buffer := buffer.Write(Csv.FormatRow(ValueCells(record)));
      ConcatAssoc(before, header, Csv.FormatRow(ValueCells(record)));
      assert buffer.data == OutputBody(out[..recordCount + 1]);
      recordCount := recordCount + 1;
    }
    assert out[..recordCount] == out;
    body := buffer.GetValue();
    o := Pass;
  }

  /** A prefix of the yielded records has a field when a shorter one does or
      its last record has one; a whole run has a field when any prefix has. */
  lemma HasFieldStep(out: seq<OutRecord>, k: nat)
    requires k < |out|
    ensures HasField(out[..k + 1]) <==> HasField(out[..k]) || |out[k]| > 0
    ensures HasField(out[..k + 1]) ==> HasField(out)
  {
    var p := out[..k + 1];
    assert p[k] == out[k];
    if HasField(p) {
      var j :| 0 <= j < |p| && |p[j]| > 0;
      assert p[j] == out[j];
      if j < k {
        assert out[..k][j] == out[j];
      }
    }
    if HasField(out[..k]) {
      var j :| 0 <= j < k && |out[..k][j]| > 0;
      assert p[j] == out[j] == out[..k][j];
    }
  }

  /** Appending one record to the yielded records appends its row, preceded
      by the header row when it is the first. */
  lemma BodyStep(out: seq<OutRecord>, k: nat)
    requires k < |out|
    ensures OutputBody(out[..k + 1]) ==
      OutputBody(out[..k]) + (if k == 0 then HeaderRow(out[k]) else "") + Csv.FormatRow(ValueCells(out[k]))
  {
    var prefix := out[..k + 1];
    RowsLast(out, k);
    assert prefix[0] == out[0];
    if k == 0 {
      assert Rows(out[..0]) == "";
      ConcatAssoc(HeaderRow(out[0]), "", Csv.FormatRow(ValueCells(out[0])));
    } else {
      assert out[..k][0] == out[0];
      ConcatAssoc(HeaderRow(out[0]), Rows(out[..k]), Csv.FormatRow(ValueCells(out[k])));
    }
  }

  lemma RowsLast(out: seq<OutRecord>, k: nat)
    requires k < |out|
    ensures Rows(out[..k + 1]) == Rows(out[..k]) + Csv.FormatRow(ValueCells(out[k]))
  {
    assert out[..k + 1][..k] == out[..k];
  }

  /** One pass of the loop body after a chunk was read. */
  method ProcessChunk(c: Chunk, ofile: OutputStream, env: Env) returns (o: Outcome)
    modifies ofile
    ensures ofile.text == old(ofile.text) + ChunkOutput(c, env).0
    ensures o == ChunkOutput(c, env).1
  {
    var records := Records.Records(env.parseCsv(c.body));
    if records.Err? {
      return Fail(records.fault);
    }
    var body;
    body, o := WriteRows(env.stream(records.value), env.encodesValues);
    if o.Fail? {
      return;
    }
    if env.finished.None? {
      return Fail(NoFinishedFault);
    }
    var metadata := OutputMetadata(env.finished.value);
    o := WriteChunk(ofile, metadata, body, env.dumps);
  }

  /** `_execute(ifile, ofile)`. */
  method Execute(ifile: InputStream, ofile: OutputStream, env: Env) returns (o: Outcome)
    requires ifile.Valid()
    modifies ifile, ofile
    ensures ofile.text == old(ofile.text) + RunFrom(ifile.data, old(ifile.pos), env).0
    ensures o == RunFrom(ifile.data, old(ifile.pos), env).1
  {
    ghost var total := RunFrom(ifile.data, ifile.pos, env);
    ghost var written := "";
    while true
      invariant ifile.Valid()
      invariant ofile.text == old(ofile.text) + written
      invariant total.0 == written + RunFrom(ifile.data, ifile.pos, env).0
      invariant total.1 == RunFrom(ifile.data, ifile.pos, env).1
      decreases |ifile.data| - ifile.pos
    {
      var more;
      ghost var step;
      more, o, step := ExecuteStep(ifile, ofile, env);
      ConcatAssoc(old(ofile.text), written, step);
      ConcatAssoc(written, step, RunFrom(ifile.data, ifile.pos, env).0);
      if !more {
        return;
      }
      written := written + step;
    }
  }

  /** One pass of the loop: read a chunk and, when there is one, process it.
      `more` says whether the loop goes on; `step` is what the pass wrote. */
  method ExecuteStep(ifile: InputStream, ofile: OutputStream, env: Env) returns (more: bool, o: Outcome, ghost step: string)
    requires ifile.Valid()
    modifies ifile, ofile
    ensures ifile.Valid() && ofile.text == old(ofile.text) + step
    ensures more ==> old(ifile.pos) < ifile.pos
    ensures var r := RunFrom(ifile.data, old(ifile.pos), env);
      if more then r.0 == step + RunFrom(ifile.data, ifile.pos, env).0 && r.1 == RunFrom(ifile.data, ifile.pos, env).1
      else r.0 == step && r.1 == o
  {
    ghost var before := ifile.pos;
    var result := ReadChunk(ifile, env.parse);
    RunStep(ifile.data, before, env);
    if result.None? {
      ConcatAssoc(ofile.text, "", "");
      return false, Pass, "";
    }
    step := ChunkOutput(result.value, env).0;
    o := ProcessChunk(result.value, ofile, env);
    more := o.Pass?;
  }

  /** One step of `RunFrom`: the chunk at `i`, then the run after it. */
  lemma RunStep(s: string, i: nat, env: Env)
    requires i <= |s|
    ensures var (c, j) := NextChunk(s, i, env.parse);
      RunFrom(s, i, env) ==
        if c.None? then ("", Pass)
        else if ChunkOutput(c.value, env).1.Fail? then ChunkOutput(c.value, env)
        else (ChunkOutput(c.value, env).0 + RunFrom(s, j, env).0, RunFrom(s, j, env).1)
  {
  }

  // ------------------------------------------------------------ properties

  /** The loop ends as soon as the reader returns nothing: at the end of the
      input, and at a header the pattern refuses, with nothing written. */
  lemma StopsWhenReadFails(s: string, i: nat, env: Env)
    requires i <= |s|
    requires i == |s| || MatchHeader(LineAt(s, i)).None?
    ensures RunFrom(s, i, env) == ("", Pass)
  {
    NextChunkRefusals(s, i, env.parse);
  }

  /** For a command whose `finished` is true and which can encode its
      values, each input chunk whose records can be built yields exactly one
      output chunk, which the reader reads back as the metadata
      `{'finished': True}` and the body of rows built from that chunk alone. */
  lemma FinishedChunkReadsBack(c: Chunk, env: Env, rest: string)
    requires env.finished == Some(true) && env.encodesValues
    requires Records.Records(env.parseCsv(c.body)).Ok?
    requires env.parse(env.dumps(OutputMetadata(true))) == Some(OutputMetadata(true))
    ensures var (text, o) := ChunkOutput(c, env);
      o == Pass &&
      NextChunk(text + rest, 0, env.parse) ==
        (Some(Chunk(OutputMetadata(true), OutputBody(env.stream(Records.Records(env.parseCsv(c.body)).value)))), |text|)
  {
    var body := OutputBody(env.stream(Records.Records(env.parseCsv(c.body)).value));
    var text := ChunkText(env.dumps(OutputMetadata(true)), body);
    assert (text + rest)[0..] == text + rest;
    ReadWhatWasWritten(text + rest, 0, env.dumps(OutputMetadata(true)), body, rest, env.parse);
  }

  /** For a command whose `finished` is false and which can encode its
      values, the first chunk whose records can be built ends the loop with
      `TypeError` after only its header, announcing an empty metadata segment
      and the length of the body it does not write. */
  lemma UnfinishedChunkFaults(c: Chunk, env: Env)
    requires env.finished == Some(false) && env.encodesValues
    requires Records.Records(env.parseCsv(c.body)).Ok?
    ensures var (text, o) := ChunkOutput(c, env);
      o.Fail? && o.fault.TypeError? &&
      text == Header(0, |OutputBody(env.stream(Records.Records(env.parseCsv(c.body)).value))|)
  {
  }

  /** A command without a `finished` attribute, as `StreamingCommand` itself
      is, faults on every chunk it reads and writes nothing of it: with
      `AttributeError` once the records are built, with their own fault
      before. */
  lemma MissingFinishedFaults(c: Chunk, env: Env)
    requires env.finished.None?
    ensures ChunkOutput(c, env).0 == "" && ChunkOutput(c, env).1.Fail?
    ensures Records.Records(env.parseCsv(c.body)).Ok? ==> ChunkOutput(c, env).1.fault.AttributeError?
  {
  }

  /** A command without an `_encode_value` faults with `AttributeError` and
      writes nothing as soon as it yields a record with a field. */
  lemma MissingEncoderFaults(c: Chunk, env: Env)
    requires !env.encodesValues
    requires Records.Records(env.parseCsv(c.body)).Ok?
    requires HasField(env.stream(Records.Records(env.parseCsv(c.body)).value))
    ensures ChunkOutput(c, env) == ("", Fail(NoEncoderFault))
  {
  }

  /** So the loop of a command without `finished` writes nothing at all, and
      ends without a fault only when there is no chunk to read. */
  lemma MissingFinishedWritesNothing(s: string, i: nat, env: Env)
    requires i <= |s|
    requires env.finished.None?
    ensures RunFrom(s, i, env).0 == ""
    ensures RunFrom(s, i, env).1.Pass? <==> NextChunk(s, i, env.parse).0.None?
  {
    RunStep(s, i, env);
    var next := NextChunk(s, i, env.parse);
    if next.0.Some? {
      MissingFinishedFaults(next.0.value, env);
    }
  }

  /** The header row is written once, before the data rows, from the first
      yielded record; every row of the body reads back as its cells. */
  lemma {:induction false} BodyRowsReadBack(out: seq<OutRecord>)
    requires |out| > 0
    ensures Csv.ParseRecord(HeaderRow(out[0])) == Csv.CellTexts(Present(HeaderCells(Keys(out[0]))))
    ensures forall k :: 0 <= k < |out| ==> Csv.ParseRecord(Csv.FormatRow(ValueCells(out[k]))) == Csv.CellTexts(ValueCells(out[k]))
    ensures OutputBody(out) == HeaderRow(out[0]) + Rows(out)
  {
    Csv.RowRoundTrip(Present(HeaderCells(Keys(out[0]))));
    forall k | 0 <= k < |out|
      ensures Csv.ParseRecord(Csv.FormatRow(ValueCells(out[k]))) == Csv.CellTexts(ValueCells(out[k]))
    {
      Csv.RowRoundTrip(ValueCells(out[k]));
    }
  }
}
