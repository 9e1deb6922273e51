/** The decorators of a search command class: `Configuration` (command name
    and configuration-setting values), `ConfigurationSetting.fix_up` (which
    applies those values to the settings a command declares), and the option
    state behind `Option.Item` and `Option.View`. */
module Options {
  import opened Common
  import opened Metadata

  // ---------------------------------------------- the command name

  /** The `name` a decorated command class receives: the class name without
      one trailing `Command`, in lower case. */
  function CommandName(className: string): (r: string)
    ensures forall k :: 0 <= k < |r| ==> !IsAsciiUpper(r[k])
  {
    Lower(if EndsWith(className, "Command") then className[..|className| - 7] else className)
  }

  /** Exactly one trailing `Command` is removed, whatever precedes it. */
  lemma CommandNameDropsOneSuffix(base: string)
    ensures CommandName(base + "Command") == Lower(base)
  {
    var s := base + "Command";
    assert s[|s| - 7..] == "Command";
    assert s[..|s| - 7] == base;
  }

  /** A class name without the suffix is only lower-cased. */
  lemma CommandNameWithoutSuffix(className: string)
    requires !EndsWith(className, "Command")
    ensures CommandName(className) == Lower(className)
    ensures |CommandName(className)| == |className|
  {
  }

  // ----------------------------------------- configuration settings

  /** A `ConfigurationSetting` a command class declares: `member` is the
      attribute it is bound to, `declaredName` its `name` argument,
      `declaredByValue` tells a setting given by `value`/`readonly` from one
      given with its own accessors. */
  datatype SettingDef = SettingDef(
    member: string,
    declaredName: Option<string>,
    declaredByValue: bool,
    readonly: bool,
    hasSetter: bool,
    value: Json)

  function SettingName(d: SettingDef): string {
    d.declaredName.GetOr(d.member)
  }

  /** A setting given by value gets a setter unless it is read-only; one given
      with accessors has a setter when it was given one. This is the rule
      `fix_up` evidently intends; see `SettableAsWritten`. */
  predicate Settable(d: SettingDef) {
    if d.declaredByValue then !d.readonly else d.hasSetter
  }

  /** The rule as written: `setting.getter(...)` copies the property
      through its constructor, which leaves the copy's `_readonly` as `None`,
      so every setting given by value gets a setter. */
  predicate SettableAsWritten(d: SettingDef) {
    d.declaredByValue || d.hasSetter
  }

  /** What `fix_up` relies on from the settings machinery, as it evidently
      intends it: the names the specification matrix knows, the one-argument
      validation of a declared value, the validation of a supplied value, and
      `repr`. As written, the matrix and the validation function it names do
      not exist (`FixUpAsWritten`). */
  datatype SettingEnv = SettingEnv(
    specified: set<string>,
    check: Json -> Outcome,
    validate: (string, Json) -> Result<Json>,
    repr: Json -> string)

  // `sorted(values.iteritems())` on a dictionary: keys are distinct, so the
  // order is the order of the keys, compared code point by code point.

  predicate KeyLess(a: string, b: string)
    decreases |a|
  {
    |b| > 0 && (|a| == 0 || a[0] < b[0] || (a[0] == b[0] && KeyLess(a[1..], b[1..])))
  }

  predicate KeyAtMost(a: string, b: string) {
    a == b || KeyLess(a, b)
  }

  lemma {:induction false} KeyTotal(a: string, b: string)
    ensures KeyAtMost(a, b) || KeyAtMost(b, a)
    decreases |a|
  {
    if |a| > 0 && |b| > 0 && a[0] == b[0] {
      KeyTotal(a[1..], b[1..]);
      if a[1..] == b[1..] {
        assert a == [a[0]] + a[1..] && b == [b[0]] + b[1..];
      }
    }
  }

  predicate SortedByKey(ps: Pairs<Json>) {
    forall k :: 0 <= k < |ps| - 1 ==> KeyAtMost(ps[k].0, ps[k + 1].0)
  }

  function Insert(p: (string, Json), ps: Pairs<Json>): (r: Pairs<Json>)
    ensures |r| == |ps| + 1
    ensures |r| > 0 && (r[0] == p || (|ps| > 0 && r[0] == ps[0]))
  {
    if |ps| == 0 || KeyAtMost(p.0, ps[0].0) then [p] + ps
    else [ps[0]] + Insert(p, ps[1..])
  }

  function SortByKey(ps: Pairs<Json>): (r: Pairs<Json>)
    ensures |r| == |ps|
  {
    if |ps| == 0 then [] else Insert(ps[0], SortByKey(ps[1..]))
  }

  lemma {:induction false} InsertSorted(p: (string, Json), ps: Pairs<Json>)
    requires SortedByKey(ps)
    ensures SortedByKey(Insert(p, ps))
    ensures multiset(Insert(p, ps)) == multiset(ps) + multiset{p}
  {
    if |ps| == 0 || KeyAtMost(p.0, ps[0].0) {
    } else {
      var tail := ps[1..];
      assert SortedByKey(tail) by {
        forall k | 0 <= k < |tail| - 1 ensures KeyAtMost(tail[k].0, tail[k + 1].0) {
          assert tail[k] == ps[k + 1] && tail[k + 1] == ps[k + 2];
        }
      }
      InsertSorted(p, tail);
      KeyTotal(p.0, ps[0].0);
      var r := Insert(p, ps);
      var t := Insert(p, tail);
      assert r == [ps[0]] + t;
      forall k | 0 <= k < |r| - 1 ensures KeyAtMost(r[k].0, r[k + 1].0) {
        if k == 0 {
          assert r[1] == t[0];
        } else {
          assert r[k] == t[k - 1] && r[k + 1] == t[k];
        }
      }
      assert ps == [ps[0]] + tail;
    }
  }

  /** The leftovers are listed in key order, and none is lost or repeated. */
  lemma {:induction false} SortByKeySorted(ps: Pairs<Json>)
    ensures SortedByKey(SortByKey(ps))
    ensures multiset(SortByKey(ps)) == multiset(ps)
  {
    if |ps| > 0 {
      SortByKeySorted(ps[1..]);
      InsertSorted(ps[0], SortByKey(ps[1..]));
      assert ps == [ps[0]] + ps[1..];
    }
  }

  function Listing(ps: Pairs<Json>, repr: Json -> string): (r: seq<string>)
    ensures |r| == |ps|
    ensures forall k :: 0 <= k < |ps| ==> r[k] == ps[k].0 + "=" + repr(ps[k].1)
  {
    if |ps| == 0 then [] else [ps[0].0 + "=" + repr(ps[0].1)] + Listing(ps[1..], repr)
  }

  function LeftoverMessage(values: Pairs<Json>, repr: Json -> string): string {
    "Inapplicable configuration settings: " + Join(", ", Listing(SortByKey(values), repr))
  }

  /** `ConfigurationSetting.fix_up(cls, values)` from the setting at index `i`
      on, where `values` holds the supplied values not yet consumed and
      `fields` the backing fields assigned so far. */
  function FixUpFrom(defs: seq<SettingDef>, i: nat, env: SettingEnv, values: Pairs<Json>, fields: Pairs<Json>): Result<Pairs<Json>>
    requires i <= |defs|
    decreases |defs| - i
  {
    if i == |defs| then
      if |values| > 0 then Err(AttributeError(LeftoverMessage(values, env.repr))) else Ok(fields)
    else
      var d := defs[i];
      var name := SettingName(d);
      if name !in env.specified then
        Err(AttributeError("Unknown configuration setting: " + name + "=" + env.repr(d.value)))
      else if d.declaredByValue && (d.readonly || d.value != JNull) && env.check(d.value).Fail? then
        Err(env.check(d.value).fault)
      else
        match Lookup(values, name)
        case None => FixUpFrom(defs, i + 1, env, values, fields)
        case Some(v) =>
          if !Settable(d) then Err(ValueError("The value of configuration setting " + name + " is fixed"))
          else
            match env.validate(name, v)
            case Err(f) => Err(f)
            case Ok(w) => FixUpFrom(defs, i + 1, env, Remove(values, name), Put(fields, "_" + name, w))
  }

  /** `ConfigurationSetting.fix_up(cls, values)`: the result is the class's
      backing fields assigned from the supplied values. */
  method FixUpSettings(defs: seq<SettingDef>, values: Pairs<Json>, env: SettingEnv) returns (r: Result<Pairs<Json>>)
    ensures r == FixUpFrom(defs, 0, env, values, [])
  {
    var remaining := values;
    var fields: Pairs<Json> := [];
    var i := 0;
    while i < |defs|
      invariant i <= |defs|
      invariant FixUpFrom(defs, i, env, remaining, fields) == FixUpFrom(defs, 0, env, values, [])
      decreases |defs| - i
    {
      var d := defs[i];
      var name := SettingName(d);
      if name !in env.specified {
        return Err(AttributeError("Unknown configuration setting: " + name + "=" + env.repr(d.value)));
      }
      if d.declaredByValue && (d.readonly || d.value != JNull) {
        var checked := env.check(d.value);
        if checked.Fail? {
          return Err(checked.fault);
        }
      }
      var supplied := Lookup(remaining, name);
      if supplied.Some? {
        if !Settable(d) {
          return Err(ValueError("The value of configuration setting " + name + " is fixed"));
        }
        var w := env.validate(name, supplied.value);
        if w.Err? {
          return Err(w.fault);
        }
        fields := Put(fields, "_" + name, w.value);
        remaining := Remove(remaining, name);
      }
      i := i + 1;
    }
    if |remaining| > 0 {
      return Err(AttributeError(LeftoverMessage(remaining, env.repr)));
    }
    return Ok(fields);
  }

  // The outcome of `fix_up` when every setting is known and every value
  // validates.

  function NamesOf(defs: seq<SettingDef>): set<string> {
    set k | 0 <= k < |defs| :: SettingName(defs[k])
  }

  predicate DistinctNames(defs: seq<SettingDef>) {
    forall j, k :: 0 <= j < k < |defs| ==> SettingName(defs[j]) != SettingName(defs[k])
  }

  ghost predicate Cooperative(defs: seq<SettingDef>, env: SettingEnv) {
    (forall k :: 0 <= k < |defs| ==> SettingName(defs[k]) in env.specified) &&
    (forall v :: env.check(v).Pass?) &&
    (forall n, v :: env.validate(n, v).Ok?)
  }

  /** The supplied values no declared setting claims, in supplied order. */
  function Unclaimed(values: Pairs<Json>, names: set<string>): (r: Pairs<Json>)
    ensures forall n :: n !in names ==> Lookup(r, n) == Lookup(values, n)
    ensures forall n :: n in names ==> Lookup(r, n) == None
  {
    if |values| == 0 then []
    else if values[0].0 in names then Unclaimed(values[1..], names)
    else [values[0]] + Unclaimed(values[1..], names)
  }

  /** Some setting without a setter at index `i` or later is given a value. */
  predicate FixedConflictFrom(defs: seq<SettingDef>, i: nat, values: Pairs<Json>) {
    exists k :: i <= k < |defs| && SettingName(defs[k]) in Keys(values) && !Settable(defs[k])
  }

  lemma {:induction false} RemoveUnclaimed(values: Pairs<Json>, names: set<string>, n: string)
    ensures Remove(Unclaimed(values, names), n) == Unclaimed(values, names + {n})
  {
    if |values| > 0 {
      RemoveUnclaimed(values[1..], names, n);
    }
  }

  lemma {:induction false} UnclaimedAbsent(values: Pairs<Json>, names: set<string>, n: string)
    requires n !in Keys(values)
    ensures Unclaimed(values, names) == Unclaimed(values, names + {n})
  {
    if |values| > 0 {
      assert values[0].0 == Keys(values)[0];
      assert Keys(values[1..]) == Keys(values)[1..];
      UnclaimedAbsent(values[1..], names, n);
    }
  }

  lemma NamesOfStep(defs: seq<SettingDef>, i: nat)
    requires i < |defs| && DistinctNames(defs)
    ensures NamesOf(defs[..i + 1]) == NamesOf(defs[..i]) + {SettingName(defs[i])}
    ensures SettingName(defs[i]) !in NamesOf(defs[..i])
  {
    assert forall k :: 0 <= k < i ==> defs[..i + 1][k] == defs[..i][k] == defs[k];
    assert defs[..i + 1][i] == defs[i];
  }

  lemma {:induction false} FixUpFromOutcome(defs: seq<SettingDef>, i: nat, env: SettingEnv, values: Pairs<Json>, remaining: Pairs<Json>, fields: Pairs<Json>)
    requires i <= |defs|
    requires Cooperative(defs, env) && DistinctNames(defs)
    requires remaining == Unclaimed(values, NamesOf(defs[..i]))
    ensures var r := FixUpFrom(defs, i, env, remaining, fields);
      var left := Unclaimed(values, NamesOf(defs));
      (FixedConflictFrom(defs, i, values) ==> r.Err? && r.fault.ValueError?) &&
      (!FixedConflictFrom(defs, i, values) ==>
        (r.Err? <==> |left| > 0) &&
        (r.Err? ==> r == Err(AttributeError(LeftoverMessage(left, env.repr)))))
    decreases |defs| - i
  {
    if i == |defs| {
      assert defs[..i] == defs;
    } else {
      var d := defs[i];
      var name := SettingName(d);
      var before := NamesOf(defs[..i]);
      NamesOfStep(defs, i);
      assert Lookup(remaining, name) == Lookup(values, name);
      assert name in env.specified;
      assert env.check(d.value).Pass?;
      assert FixedConflictFrom(defs, i, values) <==>
        (name in Keys(values) && !Settable(d)) || FixedConflictFrom(defs, i + 1, values);
      if Lookup(values, name).None? {
        UnclaimedAbsent(values, before, name);
        assert FixUpFrom(defs, i, env, remaining, fields) == FixUpFrom(defs, i + 1, env, remaining, fields);
        FixUpFromOutcome(defs, i + 1, env, values, remaining, fields);
      } else if Settable(d) {
        var w := env.validate(name, Lookup(values, name).value);
        assert w.Ok?;
        RemoveUnclaimed(values, before, name);
        var fields' := Put(fields, "_" + name, w.value);
        assert FixUpFrom(defs, i, env, remaining, fields) == FixUpFrom(defs, i + 1, env, Remove(remaining, name), fields');
        FixUpFromOutcome(defs, i + 1, env, values, Remove(remaining, name), fields');
      }
    }
  }

  /** When every setting is known and every value validates, `fix_up` fails
      with `ValueError` exactly when a value is supplied for a setting without
      a setter; otherwise it fails, with `AttributeError`, exactly when some
      supplied name belongs to no setting, and the message lists those names
      with their values in sorted order. */
  lemma FixUpOutcome(defs: seq<SettingDef>, values: Pairs<Json>, env: SettingEnv)
    requires Cooperative(defs, env) && DistinctNames(defs)
    ensures var r := FixUpFrom(defs, 0, env, values, []);
      var left := Unclaimed(values, NamesOf(defs));
      (FixedConflictFrom(defs, 0, values) ==> r.Err? && r.fault.ValueError?) &&
      (!FixedConflictFrom(defs, 0, values) ==>
        (r.Err? <==> |left| > 0) &&
        (r.Err? ==> r == Err(AttributeError(LeftoverMessage(left, env.repr)))))
  {
    assert NamesOf(defs[..0]) == {};
    assert Unclaimed(values, {}) == values by { UnclaimedNothing(values); }
    FixUpFromOutcome(defs, 0, env, values, values, []);
  }

  lemma {:induction false} UnclaimedNothing(values: Pairs<Json>)
    ensures Unclaimed(values, {}) == values
  {
    if |values| > 0 {
      UnclaimedNothing(values[1..]);
      assert values == [values[0]] + values[1..];
    }
  }

  // ------------------------------------------------- fix-up as written

  /** `_get_specification` reads `ConfigurationSettingsType.specification_matrix`,
      which the metaclass does not define; the `except KeyError` does not
      catch the resulting error. */
  const NoMatrixFault := AttributeError("type object 'ConfigurationSettingsType' has no attribute 'specification_matrix'")

  /** `ConfigurationSetting.fix_up(cls, values)` as written: the first
      declared setting reaches `_get_specification` and fails; with no
      declared setting only the leftover check remains. */
  function FixUpAsWritten(defs: seq<SettingDef>, values: Pairs<Json>, repr: Json -> string): Result<Pairs<Json>> {
    if |defs| > 0 then Err(NoMatrixFault)
    else if |values| > 0 then Err(AttributeError(LeftoverMessage(values, repr)))
    else Ok([])
  }

  /** As written, `fix_up` assigns no backing field at all: it fails on any
      class that declares a setting, and otherwise succeeds exactly when no
      value is supplied, where the intended `FixUpFrom` would have applied
      the supplied values to the declared settings. */
  lemma FixUpAsWrittenFails(defs: seq<SettingDef>, values: Pairs<Json>, env: SettingEnv)
    ensures |defs| > 0 ==> FixUpAsWritten(defs, values, env.repr) == Err(NoMatrixFault)
    ensures |defs| == 0 ==> FixUpAsWritten(defs, values, env.repr) == FixUpFrom(defs, 0, env, values, [])
    ensures FixUpAsWritten(defs, values, env.repr).Ok? <==> |defs| == 0 && |values| == 0
  {
  }

  /** A concrete case of the lost `readonly`: `foo` declared read-only with
      value 1 and configured with 2. As written it gets a setter and would
      take the value; as intended the supplied value is refused as fixed. */
  lemma ReadonlySettingExample(env: SettingEnv)
    requires "foo" in env.specified && env.check(JInt(1)).Pass?
    ensures var d := SettingDef("foo", None, true, true, false, JInt(1));
      SettableAsWritten(d) && !Settable(d) &&
      FixUpFrom([d], 0, env, [("foo", JInt(2))], []) == Err(ValueError("The value of configuration setting foo is fixed"))
  {
    var d := SettingDef("foo", None, true, true, false, JInt(1));
    assert [d][0] == d && SettingName(d) == "foo";
    assert Lookup([("foo", JInt(2))], "foo") == Some(JInt(2));
    assert "The value of configuration setting " + "foo" + " is fixed" == "The value of configuration setting foo is fixed";
  }

  // ------------------------------------------------- the decorator

  /** What `Configuration(**settings)` is applied to; `hasName` says whether
      an object that is neither a function nor a class has a `__name__`. */
  datatype Target = FunctionTarget | ClassTarget(className: string, defs: seq<SettingDef>) | OtherTarget(typeName: string, hasName: bool)

  datatype Decoration =
    | SettingsAttached(settings: Pairs<Json>)
    | CommandConfigured(name: string, backingFields: Pairs<Json>)

  /** `ConfigurationSettingsType(module=..., name=..., bases=...)` leaves out
      the `settings` argument its `__new__` requires. */
  const MetaclassCallFault := TypeError("__new__() takes exactly 5 arguments (4 given)")

  /** The refusal of anything that is neither a function nor a class: the
      message's arguments read `o.__name__` first, which fails when there is
      none. */
  function Refusal(typeName: string, hasName: bool): (f: Fault) {
    if hasName then TypeError("Incorrect usage: Configuration decorator applied to " + typeName)
    else AttributeError("object has no attribute '__name__'")
  }

  /** `Configuration.__call__(o)` as written: a function keeps the settings
      for later; a class gets its name and then fails at the metaclass call
      (the name assignment is lost with the error); anything else is
      refused. */
  function Decorate(target: Target, settings: Pairs<Json>): (r: Result<Decoration>)
    ensures target.FunctionTarget? <==> r.Ok?
    ensures target.FunctionTarget? ==> r == Ok(SettingsAttached(settings))
    ensures target.ClassTarget? ==> r == Err(MetaclassCallFault)
    ensures target.OtherTarget? ==> r.Err? && (r.fault.TypeError? <==> target.hasName) &&
                                    (r.fault.AttributeError? <==> !target.hasName)
  {
    match target
    case FunctionTarget => Ok(SettingsAttached(settings))
    case ClassTarget(_, _) => Err(MetaclassCallFault)
    case OtherTarget(typeName, hasName) => Err(Refusal(typeName, hasName))
  }

  /** `Configuration.__call__(o)` as evidently intended: a class is named and
      has the settings applied to its configuration settings. */
  function DecorateIntended(target: Target, settings: Pairs<Json>, env: SettingEnv): (r: Result<Decoration>)
    ensures target.FunctionTarget? ==> r == Ok(SettingsAttached(settings))
    ensures target.OtherTarget? ==> r == Err(Refusal(target.typeName, target.hasName))
    ensures target.ClassTarget? && r.Ok? ==> r.value.CommandConfigured? && r.value.name == CommandName(target.className)
    ensures target.ClassTarget? ==> (r.Ok? <==> FixUpFrom(target.defs, 0, env, settings, []).Ok?)
  {
    match target
    case FunctionTarget => Ok(SettingsAttached(settings))
    case ClassTarget(className, defs) =>
      var name := CommandName(className);
      var fixedUp := FixUpFrom(defs, 0, env, settings, []);
      if fixedUp.Err? then Err(fixedUp.fault) else Ok(CommandConfigured(name, fixedUp.value))
    case OtherTarget(typeName, hasName) => Err(Refusal(typeName, hasName))
  }

  /** The two differ only on classes: as written a class is never
      configured, as intended it is whenever its settings fix up, for
      instance a class that declares no setting and is given none. */
  lemma DecorateClassFails(className: string, defs: seq<SettingDef>, settings: Pairs<Json>, env: SettingEnv)
    ensures Decorate(ClassTarget(className, defs), settings) == Err(MetaclassCallFault)
    ensures FixUpFrom(defs, 0, env, settings, []).Ok? ==> DecorateIntended(ClassTarget(className, defs), settings, env).Ok?
    ensures |defs| == 0 && |settings| == 0 ==>
      DecorateIntended(ClassTarget(className, defs), settings, env) == Ok(CommandConfigured(CommandName(className), []))
    ensures forall t: Target :: !t.ClassTarget? ==> Decorate(t, settings) == DecorateIntended(t, settings, env)
  {
  }

  // ----------------------------------------------------------- options

  /** An option's validator: the conversion it applies on assignment and the
      formatting it applies when the option is shown. */
  datatype Validator = Validator(convert: Json -> Result<Json>, format: Json -> Json)

  datatype OptionDef = OptionDef(member: string, name: string, require: bool, default: Json, validate: Option<Validator>)

  /** The value the option setter stores: the validator's conversion when
      there is a validator, the value itself otherwise. */
  function Stored(d: OptionDef, v: Json): Result<Json> {
    if d.validate.Some? then d.validate.value.convert(v) else Ok(v)
  }

  /** The indices at or after `i` whose flag is set, in increasing order. */
  function Selected(flags: seq<bool>, i: nat): (r: seq<nat>)
    requires i <= |flags|
    ensures forall j :: 0 <= j < |r| ==> i <= r[j] < |flags| && flags[r[j]]
    ensures forall j, j' :: 0 <= j < j' < |r| ==> r[j] < r[j']
    ensures forall k :: i <= k < |flags| && flags[k] ==> k in r
    decreases |flags| - i
  {
    if i == |flags| then []
    else if flags[i] then [i] + Selected(flags, i + 1)
    else Selected(flags, i + 1)
  }

  /** The first index at or after `i` whose default the setter refuses. */
  function FirstBadDefault(defs: seq<OptionDef>, i: nat): (b: nat)
    requires i <= |defs|
    ensures i <= b <= |defs|
    ensures b < |defs| ==> Stored(defs[b], defs[b].default).Err?
    ensures forall k :: i <= k < b ==> Stored(defs[k], defs[k].default).Ok?
    decreases |defs| - i
  {
    if i == |defs| then i
    else if Stored(defs[i], defs[i].default).Err? then i
    else FirstBadDefault(defs, i + 1)
  }

  /** The values, flags and outcome `View.reset()` leaves: the items before
      the first refused default hold their defaults and are unset, the rest
      are untouched. */
  function ResetState(defs: seq<OptionDef>, values: seq<Json>, isSet: seq<bool>): (r: (seq<Json>, seq<bool>, Outcome))
    requires |values| == |defs| && |isSet| == |defs|
    ensures |r.0| == |defs| && |r.1| == |defs|
  {
    var b := FirstBadDefault(defs, 0);
    (seq(|defs|, k requires 0 <= k < |defs| => if k < b then Stored(defs[k], defs[k].default).value else values[k]),
     seq(|defs|, k requires 0 <= k < |defs| => if k < b then false else isSet[k]),
     if b < |defs| then Fail(Stored(defs[b], defs[b].default).fault) else Pass)
  }

  /** The options of one command: `values` are the backing fields of the
      command (`None` until assigned), `isSet` the flags of the items. */
  class OptionView {
    const defs: seq<OptionDef>
    var values: seq<Json>
    var isSet: seq<bool>

    predicate Valid()
      reads this
    {
      |values| == |defs| && |isSet| == |defs|
    }

    constructor(defs: seq<OptionDef>)
      ensures Valid() && this.defs == defs
      ensures forall k :: 0 <= k < |defs| ==> values[k] == JNull && !isSet[k]
    {
      this.defs := defs;
      values := seq(|defs|, _ => JNull);
      isSet := seq(|defs|, _ => false);
    }

    /** The item of a member name (`name in self.options`). */
    function IndexOf(member: string): (r: Option<nat>)
      ensures r.Some? ==> r.value < |defs| && defs[r.value].member == member
      ensures r.None? <==> forall k :: 0 <= k < |defs| ==> defs[k].member != member
    {
      MemberIndex(defs, member, 0)
    }

    /** `Item.value = v`: the value goes through the option's setter, and the
        item is marked set only when the setter accepted it. */
    method SetValue(k: nat, v: Json) returns (o: Outcome)
      requires Valid() && k < |defs|
      modifies this
      ensures Valid()
      ensures Stored(defs[k], v).Ok? ==>
        o == Pass && values == old(values)[k := Stored(defs[k], v).value] && isSet == old(isSet)[k := true]
      ensures Stored(defs[k], v).Err? ==>
        o == Fail(Stored(defs[k], v).fault) && values == old(values) && isSet == old(isSet)
    {
      var stored := Stored(defs[k], v);
      if stored.Err? {
        return Fail(stored.fault);
      }
      values := values[k := stored.value];
      isSet := isSet[k := true];
      return Pass;
    }

    /** `Item.reset()`: the default goes through the same setter, and the item
        is then marked unset. */
    method ResetItem(k: nat) returns (o: Outcome)
      requires Valid() && k < |defs|
      modifies this
      ensures Valid()
      ensures var stored := Stored(defs[k], defs[k].default);
        (stored.Ok? ==> o == Pass && values == old(values)[k := stored.value] && isSet == old(isSet)[k := false]) &&
        (stored.Err? ==> o == Fail(stored.fault) && values == old(values) && isSet == old(isSet))
    {
      var stored := Stored(defs[k], defs[k].default);
      if stored.Err? {
        return Fail(stored.fault);
      }
      values := values[k := stored.value];
      isSet := isSet[k := false];
      return Pass;
    }

    /** `View.reset()`: items are reset in order; the first default the setter
        refuses stops the loop, leaving the later items as they were. */
    method Reset() returns (o: Outcome)
      requires Valid()
      modifies this
      ensures Valid()
      ensures var b := FirstBadDefault(defs, 0);
        (o == Pass <==> b == |defs|) &&
        (b < |defs| ==> o == Fail(Stored(defs[b], defs[b].default).fault)) &&
        (forall k :: 0 <= k < b ==> values[k] == Stored(defs[k], defs[k].default).value && !isSet[k]) &&
        (forall k :: b <= k < |defs| ==> values[k] == old(values)[k] && isSet[k] == old(isSet)[k])
      ensures (values, isSet, o) == ResetState(defs, old(values), old(isSet))
    {
      var i := 0;
      while i < |defs|
        invariant Valid()
        invariant i <= FirstBadDefault(defs, 0)
        invariant forall k :: 0 <= k < i ==> values[k] == Stored(defs[k], defs[k].default).value && !isSet[k]
        invariant forall k :: i <= k < |defs| ==> values[k] == old(values)[k] && isSet[k] == old(isSet)[k]
      {
        o := ResetItem(i);
        if o.Fail? {
          ghost var r := ResetState(defs, old(values), old(isSet));
          assert i == FirstBadDefault(defs, 0);
          assert values == r.0 && isSet == r.1;
          return;
        }
        i := i + 1;
      }
      ghost var r := ResetState(defs, old(values), old(isSet));
      assert values == r.0 && isSet == r.1;
      return Pass;
    }

    /** `View.get_missing()`. */
    function GetMissing(): (r: Option<seq<string>>)
      requires Valid()
      reads this
      ensures r == MissingNames(defs, isSet)
    {
      MissingNames(defs, isSet)
    }

    /** `str(view)`: the texts of the set items, in declaration order,
        separated by single spaces. */
    function Text(encode: Json -> string): (r: string)
      requires Valid()
      reads this
      ensures r == "" <==> forall k :: 0 <= k < |defs| ==> !isSet[k]
      ensures var idx := Selected(isSet, 0);
              r == Join(" ", TextsAt(defs, values, idx, encode))
    {
      var idx := Selected(isSet, 0);
      var texts := TextsAt(defs, values, idx, encode);
      assert |texts| > 0 ==> |Join(" ", texts)| > 0 by {
        if |texts| > 1 {
          assert Join(" ", texts) == texts[0] + " " + Join(" ", texts[1..]);
        }
      }
      Join(" ", texts)
    }
  }

  /** The position of the item of member `member` at or after `i`. */
  function MemberIndex(defs: seq<OptionDef>, member: string, i: nat): (r: Option<nat>)
    requires i <= |defs|
    ensures r.Some? ==> i <= r.value < |defs| && defs[r.value].member == member
    ensures r.Some? ==> forall k :: i <= k < r.value ==> defs[k].member != member
    ensures r.None? <==> forall k :: i <= k < |defs| ==> defs[k].member != member
    decreases |defs| - i
  {
    if i == |defs| then None
    else if defs[i].member == member then Some(i)
    else MemberIndex(defs, member, i + 1)
  }

  /** The names of the required items that are not set, in declaration
      order, or `None` when there are none. */
  function MissingNames(defs: seq<OptionDef>, isSet: seq<bool>): (r: Option<seq<string>>)
    requires |isSet| == |defs|
    ensures r.None? <==> forall k :: 0 <= k < |defs| ==> !(defs[k].require && !isSet[k])
    ensures r.Some? ==>
              var idx := Selected(MissingFlags(defs, isSet), 0);
              |r.value| > 0 && |r.value| == |idx| &&
              forall j :: 0 <= j < |idx| ==> r.value[j] == defs[idx[j]].name
  {
    var flags := MissingFlags(defs, isSet);
    var idx := Selected(flags, 0);
    if |idx| == 0 then None
    else
      Some(NamesAt(defs, idx))
  }

  function MissingFlags(defs: seq<OptionDef>, isSet: seq<bool>): (r: seq<bool>)
    requires |isSet| == |defs|
    ensures |r| == |defs|
    ensures forall k :: 0 <= k < |defs| ==> r[k] == (defs[k].require && !isSet[k])
  {
    if |defs| == 0 then [] else [defs[0].require && !isSet[0]] + MissingFlags(defs[1..], isSet[1..])
  }

  function NamesAt(defs: seq<OptionDef>, idx: seq<nat>): (r: seq<string>)
    requires forall j :: 0 <= j < |idx| ==> idx[j] < |defs|
    ensures |r| == |idx|
    ensures forall j :: 0 <= j < |idx| ==> r[j] == defs[idx[j]].name
  {
    if |idx| == 0 then [] else [defs[idx[0]].name] + NamesAt(defs, idx[1..])
  }

  /** `str(item)`: the name, `=`, and the encoded value, formatted by the
      validator when there is one. */
  function ItemText(d: OptionDef, value: Json, encode: Json -> string): (r: string)
    ensures |r| > 0
  {
    d.name + "=" + encode(if d.validate.Some? then d.validate.value.format(value) else value)
  }

  function TextsAt(defs: seq<OptionDef>, values: seq<Json>, idx: seq<nat>, encode: Json -> string): (r: seq<string>)
    requires |values| == |defs|
    requires forall j :: 0 <= j < |idx| ==> idx[j] < |defs|
    ensures |r| == |idx|
    ensures forall j :: 0 <= j < |idx| ==> r[j] == ItemText(defs[idx[j]], values[idx[j]], encode)
  {
    if |idx| == 0 then [] else [ItemText(defs[idx[0]], values[idx[0]], encode)] + TextsAt(defs, values, idx[1..], encode)
  }
}
