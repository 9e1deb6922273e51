/** The `SearchCommand` base class: the `getInfo` handshake of `process`, the
    messages and metrics it records in the inspector, its command line, and
    the field-name conversion of `search_results_info`. */
module SearchCommands {
  import opened Common
  import opened Metadata
  import opened Framing
  import opened Options
  import Settings
  import Streaming

  // ------------------------------------------------------------ helpers

  /** `convert_field(field)`: a leading `_` is dropped and every `.` becomes
      `_`; an empty name fails on `field[0]`. */
  function ConvertField(field: string): (r: Result<string>)
    ensures r.Err? <==> |field| == 0
    ensures r.Err? ==> r.fault.IndexError?
    ensures r.Ok? ==>
      var stripped := if field[0] == '_' then field[1..] else field;
      |r.value| == |stripped| &&
      forall k :: 0 <= k < |stripped| ==>
        r.value[k] == (if stripped[k] == '.' then '_' else stripped[k]) && r.value[k] != '.'
  {
    if |field| == 0 then Err(IndexError("string index out of range"))
    else
      var stripped := if field[0] == '_' then field[1..] else field;
      Ok(seq(|stripped|, k requires 0 <= k < |stripped| => if stripped[k] == '.' then '_' else stripped[k]))
  }

  /** The non-empty strings of `xs`, in order. */
  function NonEmptyTexts(xs: seq<string>): (r: seq<string>)
    ensures forall k :: 0 <= k < |r| ==> |r[k]| > 0
    ensures |r| <= |xs|
    ensures |r| == 0 <==> forall k :: 0 <= k < |xs| ==> |xs[k]| == 0
  {
    if |xs| == 0 then []
    else if |xs[0]| == 0 then NonEmptyTexts(xs[1..])
    else [xs[0]] + NonEmptyTexts(xs[1..])
  }

  /** `str(command)`: the command name, the text of the set options and the
      field names, the empty ones dropped, separated by single spaces. */
  function CommandLine(name: string, options: string, fieldnames: seq<string>): string {
    Join(" ", NonEmptyTexts([name, options] + fieldnames))
  }

  /** When no part holds a space, splitting the command line at spaces gives
      back exactly its non-empty parts. */
  lemma CommandLineSplits(name: string, options: string, fieldnames: seq<string>)
    requires |name| > 0
    requires !Contains(name, ' ') && !Contains(options, ' ')
    requires forall k :: 0 <= k < |fieldnames| ==> !Contains(fieldnames[k], ' ')
    ensures Split(CommandLine(name, options, fieldnames), ' ') == NonEmptyTexts([name, options] + fieldnames)
  {
    var values := [name, options] + fieldnames;
    PartsWithoutSpaces(name, options, fieldnames);
    NonEmptyTextsKeep(values, ' ');
    var parts := NonEmptyTexts(values);
    assert |parts| > 0 by { assert |values[0]| > 0; }
    SplitJoin(parts, ' ');
  }

  lemma PartsWithoutSpaces(name: string, options: string, fieldnames: seq<string>)
    requires !Contains(name, ' ') && !Contains(options, ' ')
    requires forall k :: 0 <= k < |fieldnames| ==> !Contains(fieldnames[k], ' ')
    ensures forall k :: 0 <= k < |[name, options] + fieldnames| ==> !Contains(([name, options] + fieldnames)[k], ' ')
  {
    var values := [name, options] + fieldnames;
    forall k | 0 <= k < |values| ensures !Contains(values[k], ' ') {
      if k >= 2 { assert values[k] == fieldnames[k - 2]; }
    }
  }

  /** Dropping the empty strings keeps a separator-free list separator-free. */
  lemma {:induction false} NonEmptyTextsKeep(xs: seq<string>, sep: char)
    requires forall k :: 0 <= k < |xs| ==> !Contains(xs[k], sep)
    ensures forall k :: 0 <= k < |NonEmptyTexts(xs)| ==> !Contains(NonEmptyTexts(xs)[k], sep)
  {
    if |xs| > 0 {
      NonEmptyTextsKeep(xs[1..], sep);
      assert forall k :: 0 <= k < |xs[1..]| ==> xs[1..][k] == xs[k + 1];
    }
  }

  /** `arg.split(sep, 1)`: one part when `sep` does not occur, otherwise the
      text before its first occurrence and everything after it. */
  function SplitFirst(arg: string, sep: char): (r: seq<string>)
    ensures |r| == 1 || |r| == 2
    ensures |r| == 1 <==> !Contains(arg, sep)
    ensures |r| == 1 ==> r[0] == arg
    ensures |r| == 2 ==> r[0] + [sep] + r[1] == arg && !Contains(r[0], sep)
  {
    if |arg| == 0 then [""]
    else if arg[0] == sep then
      assert arg == "" + [sep] + arg[1..];
      ["", arg[1..]]
    else
      var rest := SplitFirst(arg[1..], sep);
      assert forall k :: 1 <= k < |arg| ==> arg[k] == arg[1..][k - 1];
      if |rest| == 1 then
        assert arg == [arg[0]] + arg[1..];
        [arg]
      else
        assert arg == [arg[0]] + arg[1..];
        assert !Contains([arg[0]] + rest[0], sep) by {
          forall k | 0 <= k < |[arg[0]] + rest[0]| ensures ([arg[0]] + rest[0])[k] != sep {
            if k > 0 { assert ([arg[0]] + rest[0])[k] == rest[0][k - 1]; }
          }
        }
        [[arg[0]] + rest[0], rest[1]]
  }

  /** `'message.{0}.{1}'.format(count, type)`; a count never set reads `None`. */
  function MessageKey(count: Option<int>, messageType: string): string {
    "message." + (if count.None? then "None" else IntToString(count.value)) + "." + messageType
  }

  /** `_write_message` on a dictionary: the text goes through `format` (the
      model of `text.format(args)`), then is stored under the message key. */
  function MessageStep(inspector: Pairs<Json>, count: Option<int>, messageType: string, text: string,
                       format: string -> Result<string>): (r: Result<Pairs<Json>>)
    ensures r.Err? <==> format(text).Err?
    ensures r.Ok? ==> Lookup(r.value, MessageKey(count, messageType)) == Some(JStr(format(text).value))
    ensures r.Ok? ==> forall key :: key != MessageKey(count, messageType) ==> Lookup(r.value, key) == Lookup(inspector, key)
  {
    var formatted := format(text);
    if formatted.Err? then Err(formatted.fault)
    else Ok(Put(inspector, MessageKey(count, messageType), JStr(formatted.value)))
  }

  /** Two messages of one type under an unchanged count share one key: the
      second replaces the first in place and the key list does not grow. */
  lemma MessagesOverwrite(inspector: Pairs<Json>, count: Option<int>, messageType: string,
                          first: string, second: string, format: string -> Result<string>)
    requires format(first).Ok? && format(second).Ok?
    ensures var once := MessageStep(inspector, count, messageType, first, format).value;
      var twice := MessageStep(once, count, messageType, second, format).value;
      Lookup(twice, MessageKey(count, messageType)) == Some(JStr(format(second).value)) &&
      Keys(twice) == Keys(once) &&
      MessageKey(count, messageType) in Keys(once)
  {
    var key := MessageKey(count, messageType);
    var once := MessageStep(inspector, count, messageType, first, format).value;
    assert Lookup(once, key).Some?;
  }

  /** The functions that stand for the library calls of the handshake:
      `text.format(())`, the JSON encoder of option values, `repr` of an
      `[name, value]` list and of setting values, `json.dumps` and the
      metadata parser. */
  datatype Texts = Texts(
    format: string -> Result<string>,
    encode: Json -> string,
    reprArgs: seq<string> -> string,
    repr: Json -> string,
    dumps: Json -> string,
    parse: string -> Option<Json>)

  /** The state `process` changes: the field names, the option values and
      flags, and the inspector. */
  datatype ArgState = ArgState(fieldnames: seq<string>, values: seq<Json>, isSet: seq<bool>, inspector: Pairs<Json>)

  predicate Fits(defs: seq<OptionDef>, st: ArgState) {
    |st.values| == |defs| && |st.isSet| == |defs|
  }

  /** A `_write_message` call within `process`. */
  function Report(st: ArgState, count: Option<int>, messageType: string, text: string,
                  format: string -> Result<string>): (ArgState, Outcome) {
    var r := MessageStep(st.inspector, count, messageType, text, format);
    if r.Err? then (st, Fail(r.fault)) else (st.(inspector := r.value), Pass)
  }

  // ------------------------------------------------------ the arguments

  /** `'args' in metadata and type(metadata['args']) == list`, with what
      the two subscripts do on values that are not dictionaries. */
  function ArgTokens(metadata: Json): (r: Result<seq<Json>>)
    ensures metadata.JObject? ==> r.Ok?
    ensures metadata.JObject? && Lookup(metadata.fields, "args").Some? && Lookup(metadata.fields, "args").value.JList? ==>
      r.value == Lookup(metadata.fields, "args").value.items
  {
    match metadata
    case JObject(fields) =>
      var args := Lookup(fields, "args");
      if args.Some? && args.value.JList? then Ok(args.value.items) else Ok([])
    case JList(items) =>
      if JStr("args") in items then Err(TypeError("list indices must be integers, not unicode")) else Ok([])
    case JStr(s) =>
      if HasSubstring(s, "args") then Err(TypeError("string indices must be integers")) else Ok([])
    case JNull => Err(TypeError("argument of type 'NoneType' is not iterable"))
    case JBool(_) => Err(TypeError("argument of type 'bool' is not iterable"))
    case JInt(_) => Err(TypeError("argument of type 'int' is not iterable"))
  }

  /** One pass of the loop over `metadata['args']`. A token without `=` is a
      field name; otherwise it names an option: an unknown one and a value
      the validator refuses with `ValueError` are reported and skipped, any
      other failure stops `process`. */
  function ArgStep(defs: seq<OptionDef>, st: ArgState, arg: Json, count: Option<int>, tx: Texts): (r: (ArgState, Outcome))
    requires Fits(defs, st)
    ensures Fits(defs, r.0)
  {
    if !arg.JStr? then (st, Fail(AttributeError("object has no attribute 'split'")))
    else
      var parts := SplitFirst(arg.s, '=');
      if |parts| == 1 then (st.(fieldnames := st.fieldnames + [parts[0]]), Pass)
      else
        var k := MemberIndex(defs, parts[0], 0);
        if k.None? then Report(st, count, "ERROR", "Unrecognized option: " + tx.reprArgs(parts), tx.format)
        else
          var stored := Stored(defs[k.value], JStr(parts[1]));
          if stored.Ok? then
            (st.(values := st.values[k.value := stored.value], isSet := st.isSet[k.value := true]), Pass)
          else if stored.fault.ValueError? then
            Report(st, count, "ERROR", "Illegal value: " + ItemText(defs[k.value], st.values[k.value], tx.encode), tx.format)
          else (st, Fail(stored.fault))
  }

  /** The loop over the tokens from position `i` on. */
  function ArgsFrom(defs: seq<OptionDef>, tokens: seq<Json>, i: nat, st: ArgState, count: Option<int>, tx: Texts): (r: (ArgState, Outcome))
    requires i <= |tokens| && Fits(defs, st)
    ensures Fits(defs, r.0)
    decreases |tokens| - i
  {
    if i == |tokens| then (st, Pass)
    else
      var step := ArgStep(defs, st, tokens[i], count, tx);
      if step.1.Fail? then step else ArgsFrom(defs, tokens, i + 1, step.0, count, tx)
  }

  /** The field names are the tokens without `=`, in argument order. */
  function FieldTokens(tokens: seq<Json>): seq<string> {
    if |tokens| == 0 then []
    else if tokens[0].JStr? && !Contains(tokens[0].s, '=') then [tokens[0].s] + FieldTokens(tokens[1..])
    else FieldTokens(tokens[1..])
  }

  /** When every token is a string and no failure stops the loop, the field
      names it appends are exactly the tokens without `=`, in order. */
  lemma {:induction false} ArgsCollectFieldNames(defs: seq<OptionDef>, tokens: seq<Json>, i: nat, st: ArgState, count: Option<int>, tx: Texts)
    requires i <= |tokens| && Fits(defs, st)
    requires ArgsFrom(defs, tokens, i, st, count, tx).1 == Pass
    ensures ArgsFrom(defs, tokens, i, st, count, tx).0.fieldnames == st.fieldnames + FieldTokens(tokens[i..])
    decreases |tokens| - i
  {
    if i == |tokens| {
      assert tokens[i..] == [];
      assert st.fieldnames + [] == st.fieldnames;
    } else {
      var step := ArgStep(defs, st, tokens[i], count, tx);
      ArgsFromStep(defs, tokens, i, st, count, tx);
      ArgStepFieldNames(defs, st, tokens[i], count, tx);
      ArgsCollectFieldNames(defs, tokens, i + 1, step.0, count, tx);
      FieldTokensStep(tokens, i, st.fieldnames);
    }
  }

  lemma ArgsFromStep(defs: seq<OptionDef>, tokens: seq<Json>, i: nat, st: ArgState, count: Option<int>, tx: Texts)
    requires i < |tokens| && Fits(defs, st)
    ensures var step := ArgStep(defs, st, tokens[i], count, tx);
      ArgsFrom(defs, tokens, i, st, count, tx) ==
        if step.1.Fail? then step else ArgsFrom(defs, tokens, i + 1, step.0, count, tx)
  {
  }

  lemma FieldTokensStep(tokens: seq<Json>, i: nat, prefix: seq<string>)
    requires i < |tokens|
    ensures prefix + FieldTokens(tokens[i..]) == (prefix + FieldTokens([tokens[i]])) + FieldTokens(tokens[i + 1..])
  {
    assert tokens[i..][0] == tokens[i] && tokens[i..][1..] == tokens[i + 1..];
    assert [tokens[i]][1..] == [];
  }

  /** One token appends itself to the field names when it has no `=`, and
      nothing otherwise. */
  lemma ArgStepFieldNames(defs: seq<OptionDef>, st: ArgState, arg: Json, count: Option<int>, tx: Texts)
    requires Fits(defs, st)
    ensures var r := ArgStep(defs, st, arg, count, tx);
      r.0.fieldnames == st.fieldnames + FieldTokens([arg])
  {
    assert [arg][1..] == [];
  }

  /** An option name the command does not declare is reported under the
      error key, and the loop goes on with the field names, options and flags
      unchanged. */
  lemma UnknownOptionReported(defs: seq<OptionDef>, st: ArgState, name: string, value: string, count: Option<int>, tx: Texts)
    requires Fits(defs, st)
    requires !Contains(name, '=')
    requires forall k :: 0 <= k < |defs| ==> defs[k].member != name
    requires tx.format("Unrecognized option: " + tx.reprArgs([name, value])).Ok?
    ensures var r := ArgStep(defs, st, JStr(name + "=" + value), count, tx);
      r.1 == Pass &&
      r.0.fieldnames == st.fieldnames && r.0.values == st.values && r.0.isSet == st.isSet &&
      Lookup(r.0.inspector, MessageKey(count, "ERROR")) ==
        Some(JStr(tx.format("Unrecognized option: " + tx.reprArgs([name, value])).value))
  {
    var arg := name + "=" + value;
    assert arg == name + ['='] + value;
    var parts := SplitFirst(arg, '=');
    assert Contains(arg, '=') by { assert arg[|name|] == '='; }
    SplitFirstUnique(name, value, parts[0], parts[1]);
  }

  /** `split` at the first separator is determined by the text before it. */
  lemma SplitFirstUnique(a: string, b: string, c: string, d: string)
    requires !Contains(a, '=') && !Contains(c, '=')
    requires a + ['='] + b == c + ['='] + d
    ensures a == c && b == d
  {
    var s := a + ['='] + b;
    SeparatorAt(a, b, '=');
    SeparatorAt(c, d, '=');
    assert |a| == |c|;
    assert a == s[..|a|] == c;
    assert b == s[|a| + 1..] == d;
  }

  /** In `a + [sep] + b` with no `sep` in `a`, the first `sep` is at `|a|`. */
  lemma SeparatorAt(a: string, b: string, sep: char)
    requires !Contains(a, sep)
    ensures (a + [sep] + b)[|a|] == sep
    ensures forall k :: 0 <= k < |a| ==> (a + [sep] + b)[k] != sep
  {
  }

  /** A value the validator refuses with `ValueError` is reported with the
      option's current text, and the option keeps its value and flag. */
  lemma IllegalValueReported(defs: seq<OptionDef>, st: ArgState, k: nat, value: string, count: Option<int>, tx: Texts)
    requires Fits(defs, st) && k < |defs|
    requires !Contains(defs[k].member, '=')
    requires forall j :: 0 <= j < k ==> defs[j].member != defs[k].member
    requires Stored(defs[k], JStr(value)).Err? && Stored(defs[k], JStr(value)).fault.ValueError?
    requires tx.format("Illegal value: " + ItemText(defs[k], st.values[k], tx.encode)).Ok?
    ensures var r := ArgStep(defs, st, JStr(defs[k].member + "=" + value), count, tx);
      r.1 == Pass && r.0.values == st.values && r.0.isSet == st.isSet &&
      Lookup(r.0.inspector, MessageKey(count, "ERROR")) ==
        Some(JStr(tx.format("Illegal value: " + ItemText(defs[k], st.values[k], tx.encode)).value))
  {
    var name := defs[k].member;
    var arg := name + "=" + value;
    assert arg == name + ['='] + value;
    assert Contains(arg, '=') by { assert arg[|name|] == '='; }
    var parts := SplitFirst(arg, '=');
    SplitFirstUnique(name, value, parts[0], parts[1]);
  }

  // --------------------------------------------------- after the tokens

  /** The message for missing required options: singular for one name,
      plural with the names comma-separated otherwise. */
  function MissingMessage(missing: seq<string>): (r: string)
    requires |missing| > 0
    ensures |missing| == 1 ==> r == "A value for \"" + missing[0] + "\" is required"
    ensures |missing| > 1 ==> StartsWith(r, "Values for these options are required: ")
  {
    if |missing| == 1 then "A value for \"" + missing[0] + "\" is required"
    else "Values for these options are required: " + Join(", ", missing)
  }

  /** `get_missing()` and the one message it may cause. */
  function MissingPhase(defs: seq<OptionDef>, st: ArgState, count: Option<int>, tx: Texts): (r: (ArgState, Outcome))
    requires Fits(defs, st)
    ensures Fits(defs, r.0)
  {
    var missing := MissingNames(defs, st.isSet);
    if missing.None? then (st, Pass)
    else Report(st, count, "ERROR", MissingMessage(missing.value), tx.format)
  }

  /** The settings of a new `ConfigurationSettings(command)` over the class
      attributes `classFields`, in key order. */
  function ConfigurationItems(classFields: Settings.Attributes): Result<Pairs<Json>> {
    Settings.ItemsOf(Settings.Streaming, classFields, map[Settings.Finished := JBool(false)],
                     Settings.SettingKeys(Settings.Streaming), "")
  }

  /** With `show_configuration` true, the settings are reported as an INFO
      message; a command without that option never reports them. */
  function ShowPhase(defs: seq<OptionDef>, st: ArgState, count: Option<int>, name: string,
                     classFields: Settings.Attributes, tx: Texts): (r: (ArgState, Outcome))
    requires Fits(defs, st)
    ensures Fits(defs, r.0)
  {
    var k := MemberIndex(defs, "show_configuration", 0);
    if k.None? || !Truthy(st.values[k.value]) then (st, Pass)
    else
      var items := ConfigurationItems(classFields);
      if items.Err? then (st, Fail(items.fault))
      else
        Report(st, count, "INFO",
               name + " command configuration settings: " + Settings.SettingsText(items.value, tx.repr), tx.format)
  }

  /** The metadata of the configuration chunk: the settings, then the
      inspector. */
  function ConfigurationMetadata(items: Pairs<Json>, inspector: Pairs<Json>): (m: Json)
    ensures Truthy(m)
  {
    JObject(Put(items, "inspector", JObject(inspector)))
  }

  /** What the fault handler records: the template, unformatted. */
  const FaultText := "%s at \"%s\", line %d : %s"

  datatype ProcessEnd = Returned | Exited(code: int) | Raised(fault: Fault)

  datatype Snapshot = Snapshot(st: ArgState, count: Option<int>, metadata: Option<Json>)

  /** What one call of `process` writes, how it ends, and the state it leaves. */
  datatype Run = Run(text: string, end: ProcessEnd, last: Snapshot)

  /** The bare `except:` of `process`: the error is recorded under the
      current count and the command exits with status 1; a failure while
      recording it escapes. */
  function Handle(s: Snapshot, text: string, tx: Texts): Run {
    var r := MessageStep(s.st.inspector, s.count, "ERROR", FaultText, tx.format);
    if r.Err? then Run(text, Raised(r.fault), s)
    else Run(text, Exited(1), s.(st := s.st.(inspector := r.value)))
  }

  /** The handshake after the count is set: the arguments, the missing
      options, the metadata, and the configuration report. */
  function Negotiation(name: string, defs: seq<OptionDef>, classFields: Settings.Attributes, s: Snapshot,
                       metadata: Json, tx: Texts): (r: (Snapshot, Outcome))
    requires Fits(defs, s.st)
    ensures Fits(defs, r.0.st) && r.0.count == s.count
    ensures r.1 == Pass ==> r.0.metadata == Some(metadata)
  {
    var tokens := ArgTokens(metadata);
    if tokens.Err? then (s, Fail(tokens.fault))
    else
      var (st3, o3) := ArgsFrom(defs, tokens.value, 0, s.st, s.count, tx);
      if o3.Fail? then (s.(st := st3), o3)
      else
        var (st4, o4) := MissingPhase(defs, st3, s.count, tx);
        if o4.Fail? then (s.(st := st4), o4)
        else
          var (st6, o6) := ShowPhase(defs, st4, s.count, name, classFields, tx);
          (s.(st := st6, metadata := Some(metadata)), o6)
  }

  /** The configuration chunk, then `_execute` on the input from `pos`. */
  function Conclusion(classFields: Settings.Attributes, s: Snapshot, data: string, pos: nat,
                      tx: Texts, env: Streaming.Env): Run
    requires pos <= |data|
  {
    var items := ConfigurationItems(classFields);
    if items.Err? then Handle(s, "", tx)
    else
      var chunk := ChunkText(tx.dumps(ConfigurationMetadata(items.value, s.st.inspector)), "") + "\n";
      var s7 := s.(st := s.st.(inspector := []));
      var (output, o8) := Streaming.RunFrom(data, pos, env);
      if o8.Fail? then Handle(s7, chunk + output, tx)
      else Run(chunk + output, Returned, s7)
  }

  lemma ConclusionUnconfigured(classFields: Settings.Attributes, s: Snapshot, data: string, pos: nat,
                               tx: Texts, env: Streaming.Env)
    requires pos <= |data| && ConfigurationItems(classFields).Err?
    ensures Conclusion(classFields, s, data, pos, tx, env) == Handle(s, "", tx)
  {
  }

  lemma ConclusionConfigured(classFields: Settings.Attributes, s: Snapshot, data: string, pos: nat,
                             tx: Texts, env: Streaming.Env, chunk: string, s7: Snapshot)
    requires pos <= |data| && ConfigurationItems(classFields).Ok?
    requires chunk == ChunkText(tx.dumps(ConfigurationMetadata(ConfigurationItems(classFields).value, s.st.inspector)), "") + "\n"
    requires s7 == s.(st := s.st.(inspector := []))
    ensures var run := Conclusion(classFields, s, data, pos, tx, env);
      var r := Streaming.RunFrom(data, pos, env);
      run.text == chunk + r.0 &&
      (r.1.Fail? ==> run.end == Handle(s7, "", tx).end && run.last == Handle(s7, "", tx).last) &&
      (r.1.Pass? ==> run.end == Returned && run.last == s7)
  {
  }

  /** `process(args, ifile, ofile)` for a streaming command, from the state
      `s` and input position `pos`. */
  function ProcessRun(name: string, defs: seq<OptionDef>, classFields: Settings.Attributes, s: Snapshot,
                      data: string, pos: nat, tx: Texts, env: Streaming.Env): Run
    requires pos <= |data| && Fits(defs, s.st)
  {
    var (read, pos1) := NextChunk(data, pos, tx.parse);
    if read.None? then Handle(s, "", tx)
    else
      var (values, isSet, reset) := ResetState(defs, s.st.values, s.st.isSet);
      var s1 := s.(st := s.st.(fieldnames := [], values := values, isSet := isSet));
      if reset.Fail? then Handle(s1, "", tx)
      else
        var (s6, o6) := Negotiation(name, defs, classFields, s1.(count := Some(0)), read.value.metadata, tx);
        if o6.Fail? then Handle(s6, "", tx)
        else Conclusion(classFields, s6, data, pos1, tx, env)
  }

  // ------------------------------------------------------------ the class

  class SearchCommand {
    /** The `name` the `Configuration` decorator gave the class. */
    const name: string
    /** `self.options`, the view over the declared options. */
    const options: OptionView
    /** The class attributes of the command's `ConfigurationSettings`. */
    const classFields: Settings.Attributes
    var fieldnames: seq<string>
    var inspector: Pairs<Json>
    var messageCount: Option<int>
    var metadata: Option<Json>

    predicate Valid()
      reads this, options
    {
      options.Valid()
    }

    function State(): ArgState
      reads this, options
    {
      ArgState(fieldnames, options.values, options.isSet, inspector)
    }

    function Snap(): Snapshot
      reads this, options
    {
      Snapshot(State(), messageCount, metadata)
    }

    constructor(name: string, defs: seq<OptionDef>, classFields: Settings.Attributes)
      ensures Valid() && fresh(options)
      ensures this.name == name && options.defs == defs && this.classFields == classFields
      ensures fieldnames == [] && inspector == [] && messageCount == None && metadata == None
    {
      this.name := name;
      this.classFields := classFields;
      options := new OptionView(defs);
      fieldnames := [];
      inspector := [];
      messageCount := None;
      metadata := None;
    }

    /** `str(self)`. */
    function Text(encode: Json -> string): string
      requires Valid()
      reads this, options
    {
      CommandLine(name, options.Text(encode), fieldnames)
    }

    /** `_write_message(type, text)`: stored under `message.<count>.<type>`;
        the count does not change. */
    method WriteMessage(messageType: string, messageText: string, format: string -> Result<string>) returns (o: Outcome)
      modifies this
      ensures var r := MessageStep(old(inspector), messageCount, messageType, messageText, format);
        (r.Ok? ==> o == Pass && inspector == r.value) &&
        (r.Err? ==> o == Fail(r.fault) && inspector == old(inspector))
      ensures messageCount == old(messageCount) && fieldnames == old(fieldnames) && metadata == old(metadata)
    {
      var formatted := format(messageText);
      if formatted.Err? {
        return Fail(formatted.fault);
      }
      inspector := Put(inspector, MessageKey(messageCount, messageType), JStr(formatted.value));
      return Pass;
    }

    /** `write_metric(name, value)`: stored under `metric.<name>`. */
    method WriteMetric(metricName: string, value: Json)
      modifies this
      ensures inspector == Put(old(inspector), "metric." + metricName, value)
      ensures Lookup(inspector, "metric." + metricName) == Some(value)
      ensures messageCount == old(messageCount) && fieldnames == old(fieldnames) && metadata == old(metadata)
    {
      inspector := Put(inspector, "metric." + metricName, value);
    }

    /** One token of `metadata['args']`. */
    method ProcessArg(arg: Json, tx: Texts) returns (o: Outcome)
      requires Valid()
      modifies this, options
      ensures Valid()
      ensures (State(), o) == ArgStep(options.defs, old(State()), arg, messageCount, tx)
      ensures messageCount == old(messageCount) && metadata == old(metadata)
    {
      if !arg.JStr? {
        return Fail(AttributeError("object has no attribute 'split'"));
      }
      var result := SplitFirst(arg.s, '=');
      if |result| == 1 {
        fieldnames := fieldnames + [result[0]];
        return Pass;
      }
      var k := options.IndexOf(result[0]);
      if k.None? {
        o := WriteMessage("ERROR", "Unrecognized option: " + tx.reprArgs(result), tx.format);
        return;
      }
      var text := ItemText(options.defs[k.value], options.values[k.value], tx.encode);
      o := options.SetValue(k.value, JStr(result[1]));
      if o.Fail? && o.fault.ValueError? {
        o := WriteMessage("ERROR", "Illegal value: " + text, tx.format);
      }
    }

    /** The loop over `metadata['args']`. */
    method ProcessArgs(tokens: seq<Json>, tx: Texts) returns (o: Outcome)
      requires Valid()
      modifies this, options
      ensures Valid()
      ensures (State(), o) == ArgsFrom(options.defs, tokens, 0, old(State()), messageCount, tx)
      ensures messageCount == old(messageCount) && metadata == old(metadata)
    {
      var i := 0;
      while i < |tokens|
        invariant i <= |tokens| && Valid()
        invariant messageCount == old(messageCount) && metadata == old(metadata)
        invariant ArgsFrom(options.defs, tokens, i, State(), messageCount, tx) ==
                  ArgsFrom(options.defs, tokens, 0, old(State()), messageCount, tx)
      {
        o := ProcessArg(tokens[i], tx);
        if o.Fail? {
          return;
        }
        i := i + 1;
      }
      return Pass;
    }

    /** The report of missing required options. */
    method ReportMissing(tx: Texts) returns (o: Outcome)
      requires Valid()
      modifies this
      ensures Valid()
      ensures (State(), o) == MissingPhase(options.defs, old(State()), messageCount, tx)
      ensures messageCount == old(messageCount) && metadata == old(metadata)
    {
      var missing := options.GetMissing();
      if missing.None? {
        return Pass;
      }
      o := WriteMessage("ERROR", MissingMessage(missing.value), tx.format);
    }

    /** `if self.show_configuration: self.write_info(...)`. */
    method ShowConfiguration(tx: Texts) returns (o: Outcome)
      requires Valid()
      modifies this
      ensures Valid()
      ensures (State(), o) == ShowPhase(options.defs, old(State()), messageCount, name, classFields, tx)
      ensures messageCount == old(messageCount) && metadata == old(metadata)
    {
      var k := options.IndexOf("show_configuration");
      if k.None? || !Truthy(options.values[k.value]) {
        return Pass;
      }
      var configuration := new Settings.ConfigurationSettings(Settings.Streaming, classFields);
      var items := configuration.Items("");
      if items.Err? {
        return Fail(items.fault);
      }
      o := WriteMessage("INFO", name + " command configuration settings: " + Settings.SettingsText(items.value, tx.repr), tx.format);
    }

    /** The configuration chunk, the clearing of the inspector, and `'\n'`. */
    method WriteConfiguration(ofile: OutputStream, tx: Texts) returns (o: Outcome)
      modifies this, ofile
      ensures var items := ConfigurationItems(classFields);
        (items.Err? ==> o == Fail(items.fault) && ofile.text == old(ofile.text) && inspector == old(inspector)) &&
        (items.Ok? ==>
          (o == Pass && inspector == [] &&
           ofile.text == old(ofile.text) + ChunkText(tx.dumps(ConfigurationMetadata(items.value, old(inspector))), "") + "\n"))
      ensures messageCount == old(messageCount) && metadata == old(metadata) && fieldnames == old(fieldnames)
    {
      var configuration := new Settings.ConfigurationSettings(Settings.Streaming, classFields);
      var items := configuration.Items("");
      if items.Err? {
        return Fail(items.fault);
      }
      o := WriteChunk(ofile, ConfigurationMetadata(items.value, inspector), "", tx.dumps);
      inspector := [];
      ofile.Write("\n");
    }

    /** The bare `except:` of `process`. */
    method HandleFault(tx: Texts) returns (end: ProcessEnd)
      requires Valid()
      modifies this
      ensures Valid()
      ensures var run := Handle(old(Snap()), "", tx);
        end == run.end && Snap() == run.last
    {
      var o := WriteMessage("ERROR", FaultText, tx.format);
      end := if o.Fail? then Raised(o.fault) else Exited(1);
    }

    /** The handshake after the count is set. */
    method Negotiate(metadata: Json, tx: Texts) returns (o: Outcome)
      requires Valid()
      modifies this, options
      ensures Valid()
      ensures (Snap(), o) == Negotiation(name, options.defs, classFields, old(Snap()), metadata, tx)
    {
      var tokens := ArgTokens(metadata);
      if tokens.Err? {
        return Fail(tokens.fault);
      }
      o := ProcessArgs(tokens.value, tx);
      if o.Fail? {
        return;
      }
      o := ReportMissing(tx);
      if o.Fail? {
        return;
      }
      // The exit gate `_message_count > 0` compares the count `process`
      // has just set to 0, so it never stops the handshake.
      this.metadata := Some(metadata);
      o := ShowConfiguration(tx);
    }

    /** The configuration chunk, then `_execute`. */
    method Conclude(ifile: InputStream, ofile: OutputStream, tx: Texts, env: Streaming.Env) returns (end: ProcessEnd)
      requires Valid() && ifile.Valid()
      modifies this, ifile, ofile
      ensures Valid()
      ensures var run := Conclusion(classFields, old(Snap()), ifile.data, old(ifile.pos), tx, env);
        end == run.end && Snap() == run.last && ofile.text == old(ofile.text) + run.text
    {
      ghost var s0 := Snap();
      ghost var run := Conclusion(classFields, s0, ifile.data, ifile.pos, tx, env);
      var o := WriteConfiguration(ofile, tx);
      if o.Fail? {
        ConclusionUnconfigured(classFields, s0, ifile.data, ifile.pos, tx, env);
        end := HandleFault(tx);
        assert ofile.text == old(ofile.text) + "";
        return;
      }
      ghost var chunk := ChunkText(tx.dumps(ConfigurationMetadata(ConfigurationItems(classFields).value, s0.st.inspector)), "") + "\n";
      ghost var s7 := Snap();
      ghost var text1 := ofile.text;
      assert text1 == old(ofile.text) + chunk;
      ConclusionConfigured(classFields, s0, ifile.data, ifile.pos, tx, env, chunk, s7);
      o := Streaming.Execute(ifile, ofile, env);
      ghost var output := Streaming.RunFrom(ifile.data, old(ifile.pos), env).0;
      assert ofile.text == text1 + output;
      ConcatAssoc(old(ofile.text), chunk, output);
      assert run.text == chunk + output;
      assert Snap() == s7;
      if o.Fail? {
        end := HandleFault(tx);
        return;
      }
      end := Returned;
    }

    /** `process(args, ifile, ofile)` for a streaming command: the `getInfo`
        exchange, then `_execute` on the rest of the input. */
    method Process(ifile: InputStream, ofile: OutputStream, tx: Texts, env: Streaming.Env) returns (end: ProcessEnd)
      requires Valid() && ifile.Valid()
      modifies this, options, ifile, ofile
      ensures Valid()
      ensures var run := ProcessRun(name, options.defs, classFields, old(Snap()), ifile.data, old(ifile.pos), tx, env);
        end == run.end && Snap() == run.last && ofile.text == old(ofile.text) + run.text
    {
      var read := ReadChunk(ifile, tx.parse);
      if read.None? {
        end := HandleFault(tx);
        assert ofile.text == old(ofile.text) + "";
        return;
      }
      fieldnames := [];
      var o := options.Reset();
      if o.Fail? {
        end := HandleFault(tx);
        assert ofile.text == old(ofile.text) + "";
        return;
      }
      messageCount := Some(0);
      o := Negotiate(read.value.metadata, tx);
      if o.Fail? {
        end := HandleFault(tx);
        assert ofile.text == old(ofile.text) + "";
        return;
      }
      end := Conclude(ifile, ofile, tx, env);
    }
  }

  // ------------------------------------------------------------ properties

  /** A handshake that returns has written exactly one chunk, the
      configuration with the inspector as the handshake left it, then `'\n'`,
      then what `_execute` writes; it leaves the inspector empty and the
      count at 0. */
  lemma ReturnedWritesOneConfigurationChunk(name: string, defs: seq<OptionDef>, classFields: Settings.Attributes, s: Snapshot,
                                            data: string, pos: nat, tx: Texts, env: Streaming.Env)
    requires pos <= |data| && Fits(defs, s.st)
    requires ProcessRun(name, defs, classFields, s, data, pos, tx, env).end == Returned
    ensures var run := ProcessRun(name, defs, classFields, s, data, pos, tx, env);
      var (read, pos1) := NextChunk(data, pos, tx.parse);
      read.Some? && ConfigurationItems(classFields).Ok? &&
      run.last.st.inspector == [] && run.last.count == Some(0) && run.last.metadata == Some(read.value.metadata) &&
      Streaming.RunFrom(data, pos1, env).1 == Pass &&
      exists inspector: Pairs<Json> ::
        run.text == ChunkText(tx.dumps(ConfigurationMetadata(ConfigurationItems(classFields).value, inspector)), "") + "\n" +
                    Streaming.RunFrom(data, pos1, env).0
  {
    var (read, pos1) := NextChunk(data, pos, tx.parse);
    var (values, isSet, reset) := ResetState(defs, s.st.values, s.st.isSet);
    var s1 := s.(st := s.st.(fieldnames := [], values := values, isSet := isSet));
    var (s6, o6) := Negotiation(name, defs, classFields, s1.(count := Some(0)), read.value.metadata, tx);
    assert ProcessRun(name, defs, classFields, s, data, pos, tx, env) == Conclusion(classFields, s6, data, pos1, tx, env);
    ConclusionReturned(classFields, s6, data, pos1, tx, env);
    var inspector := s6.st.inspector;
  }

  /** A streaming command that has no `finished` attribute, as the base
      classes have none, returns only when no chunk follows the handshake,
      and then has written the configuration chunk and `'\n'` and nothing
      else. */
  lemma ReturnedWithoutFinished(name: string, defs: seq<OptionDef>, classFields: Settings.Attributes, s: Snapshot,
                                data: string, pos: nat, tx: Texts, env: Streaming.Env)
    requires pos <= |data| && Fits(defs, s.st)
    requires env.finished.None?
    requires ProcessRun(name, defs, classFields, s, data, pos, tx, env).end == Returned
    ensures NextChunk(data, pos, tx.parse).0.Some?
    ensures NextChunk(data, NextChunk(data, pos, tx.parse).1, env.parse).0.None?
    ensures exists inspector: Pairs<Json> ::
      ProcessRun(name, defs, classFields, s, data, pos, tx, env).text ==
        ChunkText(tx.dumps(ConfigurationMetadata(ConfigurationItems(classFields).value, inspector)), "") + "\n"
  {
    ReturnedWritesOneConfigurationChunk(name, defs, classFields, s, data, pos, tx, env);
    var text := ProcessRun(name, defs, classFields, s, data, pos, tx, env).text;
    var pos1 := NextChunk(data, pos, tx.parse).1;
    assert Streaming.RunFrom(data, pos1, env).1 == Pass;
    Streaming.MissingFinishedWritesNothing(data, pos1, env);
    var inspector: Pairs<Json> :| text ==
      ChunkText(tx.dumps(ConfigurationMetadata(ConfigurationItems(classFields).value, inspector)), "") + "\n" +
      Streaming.RunFrom(data, pos1, env).0;
    var chunk := ChunkText(tx.dumps(ConfigurationMetadata(ConfigurationItems(classFields).value, inspector)), "") + "\n";
    assert chunk + "" == chunk;
    assert text == chunk;
  }

  /** The last phase returns only after writing the chunk with the given
      inspector and everything `_execute` writes. */
  lemma ConclusionReturned(classFields: Settings.Attributes, s: Snapshot, data: string, pos: nat, tx: Texts, env: Streaming.Env)
    requires pos <= |data|
    requires Conclusion(classFields, s, data, pos, tx, env).end == Returned
    ensures var run := Conclusion(classFields, s, data, pos, tx, env);
      ConfigurationItems(classFields).Ok? && Streaming.RunFrom(data, pos, env).1 == Pass &&
      run.last == s.(st := s.st.(inspector := [])) &&
      run.text == ChunkText(tx.dumps(ConfigurationMetadata(ConfigurationItems(classFields).value, s.st.inspector)), "") + "\n" +
                  Streaming.RunFrom(data, pos, env).0
  {
    var items := ConfigurationItems(classFields);
    if items.Err? {
      assert false;
    } else {
      var chunk := ChunkText(tx.dumps(ConfigurationMetadata(items.value, s.st.inspector)), "") + "\n";
      var s7 := s.(st := s.st.(inspector := []));
      var r := Streaming.RunFrom(data, pos, env);
      if r.1.Fail? {
        assert false;
      }
    }
  }

  /** Every way `process` stops early goes through the handler: the command
      exits with status 1 and records the fault template under the count it
      had, unless recording it fails. */
  lemma FaultsExit(name: string, defs: seq<OptionDef>, classFields: Settings.Attributes, s: Snapshot,
                   data: string, pos: nat, tx: Texts, env: Streaming.Env)
    requires pos <= |data| && Fits(defs, s.st)
    requires tx.format(FaultText) == Ok(FaultText)
    ensures var run := ProcessRun(name, defs, classFields, s, data, pos, tx, env);
      run.end == Returned || run.end == Exited(1)
    ensures var run := ProcessRun(name, defs, classFields, s, data, pos, tx, env);
      run.end == Exited(1) ==> Lookup(run.last.st.inspector, MessageKey(run.last.count, "ERROR")) == Some(JStr(FaultText))
  {
  }

  /** A header that cannot be read fails before the count is set: the fault
      is recorded under `message.None.ERROR` when no earlier handshake set it. */
  lemma UnreadableHandshake(name: string, defs: seq<OptionDef>, classFields: Settings.Attributes, s: Snapshot,
                            data: string, tx: Texts, env: Streaming.Env)
    requires Fits(defs, s.st) && s.count == None
    requires tx.format(FaultText) == Ok(FaultText)
    ensures var run := ProcessRun(name, defs, classFields, s, data, |data|, tx, env);
      run.end == Exited(1) && run.text == "" &&
      Lookup(run.last.st.inspector, MessageKey(None, "ERROR")) == Some(JStr(FaultText))
  {
    NextChunkRefusals(data, |data|, tx.parse);
    assert ProcessRun(name, defs, classFields, s, data, |data|, tx, env) == Handle(s, "", tx);
  }
}
