/** The configuration settings of a streaming or a reporting command: the
    settings every command shares (`finished`, `partial`, `stderr_dest`), the
    streaming ones (`distributed`, `generating`, `maxinputs`,
    `required_fields`, `run_in_preview`, the fixed `type`), the reporting ones
    (`requires_preop`, `run_in_preview`, the computed `streaming_preop`, the
    fixed `type`), and the structural checks of the two command kinds. */
module Settings {
  import opened Common
  import opened Metadata

  datatype Kind = Streaming | Reporting

  /** The configuration settings of the two kinds. */
  datatype Setting =
    | Distributed | Finished | Generating | MaxInputs | Partial | RequiredFields
    | RequiresPreop | RunInPreview | StderrDest | StreamingPreop | Type

  function SettingName(s: Setting): string {
    match s
    case Distributed => "distributed"
    case Finished => "finished"
    case Generating => "generating"
    case MaxInputs => "maxinputs"
    case Partial => "partial"
    case RequiredFields => "required_fields"
    case RequiresPreop => "requires_preop"
    case RunInPreview => "run_in_preview"
    case StderrDest => "stderr_dest"
    case StreamingPreop => "streaming_preop"
    case Type => "type"
  }

  /** The settings of a kind, in the sorted order of their names, which is
      the order `iteritems` lists them in. */
  function SettingKeys(kind: Kind): seq<Setting> {
    match kind
    case Streaming => [Distributed, Finished, Generating, MaxInputs, Partial, RequiredFields, RunInPreview, StderrDest, Type]
    case Reporting => [Finished, Partial, RequiresPreop, RunInPreview, StderrDest, StreamingPreop, Type]
  }

  predicate Of(kind: Kind, s: Setting) {
    match s
    case RequiresPreop | StreamingPreop => kind == Reporting
    case Distributed | Generating | MaxInputs | RequiredFields => kind == Streaming
    case _ => true
  }

  /** `Of` holds exactly for the listed settings of the kind. */
  lemma OfListed(kind: Kind, s: Setting)
    ensures Of(kind, s) <==> s in SettingKeys(kind)
  {
  }

  /** The backing attributes (`_<name>`) are keyed by their setting. */
  type Attributes = map<Setting, Json>

  /** The class attributes that back the settings by default. */
  function ClassDefaults(kind: Kind): Attributes {
    var shared := map[Partial := JBool(false), StderrDest := JStr("log")];
    match kind
    case Streaming =>
      shared[Distributed := JBool(false)][Generating := JBool(false)][MaxInputs := JNull]
            [RequiredFields := JNull][RunInPreview := JNull]
    case Reporting => shared[RequiresPreop := JBool(false)][RunInPreview := JNull]
  }

  /** `getattr(self, '_' + name)`: the instance attribute, else the class
      attribute. */
  function Attr(classFields: Attributes, fields: Attributes, s: Setting): Result<Json> {
    if s in fields then Ok(fields[s])
    else if s in classFields then Ok(classFields[s])
    else Err(AttributeError("object has no attribute '_" + SettingName(s) + "'"))
  }

  /** The values each setter accepts. */
  predicate Accepts(kind: Kind, s: Setting, v: Json) {
    match s
    case Finished => v.JBool?
    case Partial => v.JBool?
    case StderrDest => v == JStr("log") || v == JStr("none")
    case RequiresPreop => v.JNull? || v.JBool?
    case RunInPreview => kind == Streaming || v.JNull? || v.JBool?
    case _ => true
  }

  /** A setting without a setter. */
  predicate ReadOnly(s: Setting) {
    s == Type || s == StreamingPreop
  }

  /** `setattr(settings, name, v)`: the instance attributes afterwards, with
      every setter storing into its own attribute (the `partial` setter as
      evidently intended; see `AssignAsWritten`). */
  function Assign(kind: Kind, s: Setting, v: Json, fields: Attributes): Result<Attributes> {
    if !Of(kind, s) || ReadOnly(s) then Err(AttributeError("can't set attribute"))
    else if !Accepts(kind, s, v) then Err(ValueError("Illegal value for " + SettingName(s)))
    else Ok(fields[s := v])
  }

  /** `setattr(settings, name, v)` as written: the `partial` setter stores
      into `_stderr_dest`. */
  function AssignAsWritten(kind: Kind, s: Setting, v: Json, fields: Attributes): Result<Attributes> {
    if !Of(kind, s) || ReadOnly(s) then Err(AttributeError("can't set attribute"))
    else if !Accepts(kind, s, v) then Err(ValueError("Illegal value for " + SettingName(s)))
    else if s == Partial then Ok(fields[StderrDest := v])
    else Ok(fields[s := v])
  }

  /** `getattr(settings, name)`; `preop` is the text `streaming_preop`
      computes for the command. `requires_preop` reads the class attribute
      only. */
  function Value(kind: Kind, classFields: Attributes, fields: Attributes, s: Setting, preop: string): Result<Json> {
    if !Of(kind, s) then Err(AttributeError("object has no attribute '" + SettingName(s) + "'"))
    else
      match s
      case Type => Ok(JStr(if kind == Streaming then "streaming" else "reporting"))
      case StreamingPreop => Ok(JStr(preop))
      case RequiresPreop =>
        if RequiresPreop in classFields then Ok(classFields[RequiresPreop])
        else Err(AttributeError("type object has no attribute '_requires_preop'"))
      case _ => Attr(classFields, fields, s)
  }

  /** `streaming_preop`: empty when the command does not override `map`;
      otherwise the command name, `__map__`, and the command line after the
      name and its separating space. */
  function StreamingPreopText(mapOverridden: bool, commandName: string, commandLine: string): string {
    if !mapOverridden then ""
    else
      var tail := if |commandName| + 1 <= |commandLine| then commandLine[|commandName| + 1..] else "";
      Join(" ", [commandName, "__map__", tail])
  }

  lemma JoinThree(a: string, b: string, c: string)
    ensures Join(" ", [a, b, c]) == a + " " + b + " " + c
  {
    assert [a, b, c][1..] == [b, c];
    assert [b, c][1..] == [c];
    assert Join(" ", [b, c]) == b + " " + c;
    assert a + " " + (b + " " + c) == a + " " + b + " " + c;
  }

  /** For a command line that starts with the command name, the preop is the
      same line with `__map__` put after the name. */
  lemma StreamingPreopOfCommandLine(commandName: string, rest: string)
    ensures StreamingPreopText(true, commandName, commandName + " " + rest) == commandName + " __map__ " + rest
    ensures StreamingPreopText(true, commandName, commandName) == commandName + " __map__ "
    ensures StreamingPreopText(false, commandName, commandName + " " + rest) == ""
  {
    var line := commandName + " " + rest;
    assert line[|commandName| + 1..] == rest;
    JoinThree(commandName, "__map__", rest);
    JoinThree(commandName, "__map__", "");
  }

  /** `iteritems()`: each setting name with its value, in key order; the
      first value that cannot be read stops the listing. */
  function ItemsOf(kind: Kind, classFields: Attributes, fields: Attributes, keys: seq<Setting>, preop: string): (r: Result<Pairs<Json>>)
    ensures r.Ok? ==> |r.value| == |keys|
    ensures r.Ok? ==> forall k :: 0 <= k < |keys| ==>
      r.value[k].0 == SettingName(keys[k]) && Value(kind, classFields, fields, keys[k], preop) == Ok(r.value[k].1)
    ensures r.Err? <==> exists k :: 0 <= k < |keys| && Value(kind, classFields, fields, keys[k], preop).Err?
  {
    if |keys| == 0 then Ok([])
    else
      var first := Value(kind, classFields, fields, keys[0], preop);
      var rest := ItemsOf(kind, classFields, fields, keys[1..], preop);
      if first.Err? then Err(first.fault)
      else if rest.Err? then
        LaterFailure(kind, classFields, fields, keys, preop);
        Err(rest.fault)
      else
        assert forall k :: 1 <= k < |keys| ==> keys[k] == keys[1..][k - 1];
        Ok([(SettingName(keys[0]), first.value)] + rest.value)
  }

  /** A setting that cannot be read after the first is one of all the keys. */
  lemma LaterFailure(kind: Kind, classFields: Attributes, fields: Attributes, keys: seq<Setting>, preop: string)
    requires |keys| > 0
    requires exists k :: 0 <= k < |keys[1..]| && Value(kind, classFields, fields, keys[1..][k], preop).Err?
    ensures exists k :: 0 <= k < |keys| && Value(kind, classFields, fields, keys[k], preop).Err?
  {
    var k :| 0 <= k < |keys[1..]| && Value(kind, classFields, fields, keys[1..][k], preop).Err?;
    assert keys[k + 1] == keys[1..][k];
  }

  /** `str(settings)`: `name=repr(value)` for each setting, comma-separated. */
  function SettingsText(items: Pairs<Json>, repr: Json -> string): string {
    Join(", ", seq(|items|, k requires 0 <= k < |items| => items[k].0 + "=" + repr(items[k].1)))
  }

  /** The configuration settings object of one command. `classFields` are
      the class attributes (the defaults, as configured for the command
      class), `fields` the instance attributes. */
  class ConfigurationSettings {
    const kind: Kind
    const classFields: Attributes
    var fields: Attributes

    predicate Valid()
      reads this
    {
      Finished in fields
    }

    /** `ConfigurationSettings(command)`: `finished` starts out false. */
    constructor(kind: Kind, classFields: Attributes)
      ensures Valid() && this.kind == kind && this.classFields == classFields
      ensures fields == map[Finished := JBool(false)]
    {
      this.kind := kind;
      this.classFields := classFields;
      fields := map[Finished := JBool(false)];
    }

    /** `setattr(self, name, v)` for a setting, through the setters as
        written (the `partial` setter stores into `_stderr_dest`). */
    method Set(s: Setting, v: Json) returns (o: Outcome)
      requires Valid()
      modifies this
      ensures Valid()
      ensures var r := AssignAsWritten(kind, s, v, old(fields));
        (r.Ok? ==> o == Pass && fields == r.value) &&
        (r.Err? ==> o == Fail(r.fault) && fields == old(fields))
    {
      var r := AssignAsWritten(kind, s, v, fields);
      if r.Err? {
        return Fail(r.fault);
      }
      fields := r.value;
      return Pass;
    }

    function Get(s: Setting, preop: string): Result<Json>
      reads this
    {
      Value(kind, classFields, fields, s, preop)
    }

    function Items(preop: string): Result<Pairs<Json>>
      reads this
    {
      ItemsOf(kind, classFields, fields, SettingKeys(kind), preop)
    }
  }

  // ------------------------------------------------------------ properties

  /** A fresh settings object over the class defaults shows the documented
      defaults. */
  lemma StreamingDefaults(preop: string)
    ensures var f := map[Finished := JBool(false)];
      var d := ClassDefaults(Streaming);
      Value(Streaming, d, f, Distributed, preop) == Ok(JBool(false)) &&
      Value(Streaming, d, f, Generating, preop) == Ok(JBool(false)) &&
      Value(Streaming, d, f, MaxInputs, preop) == Ok(JNull) &&
      Value(Streaming, d, f, RequiredFields, preop) == Ok(JNull) &&
      Value(Streaming, d, f, RunInPreview, preop) == Ok(JNull) &&
      Value(Streaming, d, f, Type, preop) == Ok(JStr("streaming")) &&
      Value(Streaming, d, f, Finished, preop) == Ok(JBool(false)) &&
      Value(Streaming, d, f, Partial, preop) == Ok(JBool(false)) &&
      Value(Streaming, d, f, StderrDest, preop) == Ok(JStr("log"))
  {
  }

  lemma ReportingDefaults(preop: string)
    ensures var f := map[Finished := JBool(false)];
      var d := ClassDefaults(Reporting);
      Value(Reporting, d, f, RequiresPreop, preop) == Ok(JBool(false)) &&
      Value(Reporting, d, f, RunInPreview, preop) == Ok(JNull) &&
      Value(Reporting, d, f, StreamingPreop, preop) == Ok(JStr(preop)) &&
      Value(Reporting, d, f, Type, preop) == Ok(JStr("reporting")) &&
      Value(Reporting, d, f, Finished, preop) == Ok(JBool(false)) &&
      Value(Reporting, d, f, Partial, preop) == Ok(JBool(false)) &&
      Value(Reporting, d, f, StderrDest, preop) == Ok(JStr("log"))
  {
  }

  /** The settings that read back what their setter stores. */
  predicate ReadsBack(kind: Kind, s: Setting) {
    Of(kind, s) && !ReadOnly(s) && s != RequiresPreop
  }

  /** For the settings that read back what they store, a setter accepts
      exactly the values its rule allows, the value is read back, and no other
      setting changes. */
  lemma SetThenGet(kind: Kind, classFields: Attributes, fields: Attributes, s: Setting, v: Json, preop: string)
    requires ReadsBack(kind, s)
    ensures Assign(kind, s, v, fields).Ok? <==> Accepts(kind, s, v)
    ensures Assign(kind, s, v, fields).Ok? ==>
      var after := Assign(kind, s, v, fields).value;
      Value(kind, classFields, after, s, preop) == Ok(v) &&
      forall other :: other != s ==>
        Value(kind, classFields, after, other, preop) == Value(kind, classFields, fields, other, preop)
  {
  }

  /** As written, the `partial` setter accepts a boolean but stores it as
      `stderr_dest`: `partial` reads the same afterwards, and `stderr_dest`
      now reads as the boolean, a value its own setter refuses. Every other
      setter agrees with `Assign`. */
  lemma PartialSetterAsWritten(kind: Kind, classFields: Attributes, fields: Attributes, v: Json, preop: string)
    ensures AssignAsWritten(kind, Partial, v, fields).Ok? <==> v.JBool?
    ensures v.JBool? ==>
      var after := AssignAsWritten(kind, Partial, v, fields).value;
      Value(kind, classFields, after, Partial, preop) == Value(kind, classFields, fields, Partial, preop) &&
      Value(kind, classFields, after, StderrDest, preop) == Ok(v) &&
      !Accepts(kind, StderrDest, v)
    ensures forall s :: s != Partial ==> AssignAsWritten(kind, s, v, fields) == Assign(kind, s, v, fields)
  {
  }

  /** A concrete case: `settings.partial = True` on a fresh streaming
      command leaves `partial` false as written, and true with `Assign`. */
  lemma PartialSetterExample()
    ensures var f := map[Finished := JBool(false)];
      AssignAsWritten(Streaming, Partial, JBool(true), f).Ok? &&
      Value(Streaming, ClassDefaults(Streaming), AssignAsWritten(Streaming, Partial, JBool(true), f).value, Partial, "") == Ok(JBool(false)) &&
      Assign(Streaming, Partial, JBool(true), f).Ok? &&
      Value(Streaming, ClassDefaults(Streaming), Assign(Streaming, Partial, JBool(true), f).value, Partial, "") == Ok(JBool(true))
  {
    var f := map[Finished := JBool(false)];
    PartialSetterAsWritten(Streaming, ClassDefaults(Streaming), f, JBool(true), "");
    SetThenGet(Streaming, ClassDefaults(Streaming), f, Partial, JBool(true), "");
  }

  /** `requires_preop` accepts `None` or a boolean, but reads the class
      attribute: what an instance stores is never read back. */
  lemma RequiresPreopReadsClass(classFields: Attributes, fields: Attributes, v: Json, preop: string)
    ensures Assign(Reporting, RequiresPreop, v, fields).Ok? <==> (v.JNull? || v.JBool?)
    ensures Assign(Reporting, RequiresPreop, v, fields).Ok? ==>
      Value(Reporting, classFields, Assign(Reporting, RequiresPreop, v, fields).value, RequiresPreop, preop)
        == Value(Reporting, classFields, fields, RequiresPreop, preop)
  {
  }

  /** `type` is fixed: it cannot be assigned and always reads the kind. */
  lemma TypeIsFixed(kind: Kind, classFields: Attributes, fields: Attributes, v: Json, preop: string)
    ensures Assign(kind, Type, v, fields).Err? && Assign(kind, Type, v, fields).fault.AttributeError?
    ensures Value(kind, classFields, fields, Type, preop) == Ok(JStr(if kind == Streaming then "streaming" else "reporting"))
  {
  }

  /** Over class attributes that hold every default, `iteritems` lists every
      setting of the kind, by name and in key order, whatever the instance
      holds. */
  lemma ItemsComplete(kind: Kind, classFields: Attributes, fields: Attributes, preop: string)
    requires ClassDefaults(kind).Keys <= classFields.Keys
    requires Finished in fields
    ensures ItemsOf(kind, classFields, fields, SettingKeys(kind), preop).Ok?
    ensures Keys(ItemsOf(kind, classFields, fields, SettingKeys(kind), preop).value) ==
      seq(|SettingKeys(kind)|, k requires 0 <= k < |SettingKeys(kind)| => SettingName(SettingKeys(kind)[k]))
  {
    var keys := SettingKeys(kind);
    forall k | 0 <= k < |keys| ensures Value(kind, classFields, fields, keys[k], preop).Ok? {
      assert keys[k] in ClassDefaults(kind) || keys[k] in {Finished, Type, StreamingPreop};
    }
  }

  // ----------------------------------------------------- structural checks

  /** `StreamingCommand.ConfigurationSettings.fix_up(command)`. */
  function StreamingFixUp(streamOverridden: bool): (o: Outcome)
    ensures o.Pass? <==> streamOverridden
    ensures o.Fail? ==> o.fault.AttributeError?
  {
    if streamOverridden then Pass else Fail(AttributeError("No StreamingCommand.stream override"))
  }

  /** The parts of a command class that the reporting fix-up examines. */
  datatype CommandClass = CommandClass(
    isReporting: bool,
    reduceOverridden: bool,
    mapOverridden: bool,
    mapSettings: Option<Pairs<Json>>)

  /** What the `map` method is given: nothing (no override), the streaming
      settings class, or one built from the settings its decorator recorded. */
  datatype MapConfig = NoMap | StreamingSettings | ConfiguredSettings(settings: Pairs<Json>)

  /** `ReportingCommand.ConfigurationSettings.fix_up(command)`: the class
      attributes afterwards and what `map` is given. */
  function ReportingFixUp(c: CommandClass, classFields: Attributes): (r: Result<(Attributes, MapConfig)>)
    ensures !c.isReporting ==> r.Err? && r.fault.TypeError?
    ensures c.isReporting && !c.reduceOverridden ==> r.Err? && r.fault.AttributeError?
    ensures r.Ok? <==> c.isReporting && c.reduceOverridden
    ensures r.Ok? && !c.mapOverridden ==>
      r.value.1 == NoMap && r.value.0 == classFields[RequiresPreop := JBool(false)]
    ensures r.Ok? && c.mapOverridden ==>
      r.value.0 == classFields &&
      r.value.1 == (if c.mapSettings.None? then StreamingSettings else ConfiguredSettings(c.mapSettings.value))
  {
    if !c.isReporting then Err(TypeError("is not a ReportingCommand"))
    else if !c.reduceOverridden then Err(AttributeError("No ReportingCommand.reduce override"))
    else if !c.mapOverridden then Ok((classFields[RequiresPreop := JBool(false)], NoMap))
    else if c.mapSettings.None? then Ok((classFields, StreamingSettings))
    else Ok((classFields, ConfiguredSettings(c.mapSettings.value)))
  }
}
