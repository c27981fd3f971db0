/** `DeviceEditorViewModel`: the editable settings of one device, its
    connection editor and its parameter editors. The editor is a value; each
    mutator returns the updated editor.

    The source compares a configuration's names, which nothing trims, with
    the editor's trimmed names. `trimmed` selects how: `false` is the code as
    written, `true` trims the configuration's name first. */
module DeviceEditors {
  import opened Wrappers
  import opened Text
  import opened Collections
  import opened Xml
  import opened DomainModels
  import ConfigurationExport
  import P = ParameterEditors
  import C = ConnectionEditors

  const NameRequiredMessage: string := "Device name cannot be null or whitespace."

  datatype DeviceEditor = DeviceEditor(
    name: string,
    defaultSource: string,
    defaultFrequency: string,
    defaultPower: string,
    defaultMode: string,
    source: string,
    frequency: string,
    power: string,
    mode: string,
    connection: C.ConnectionEditor,
    parameters: seq<P.ParameterEditor>)
  {
    /** What the constructor establishes and no mutator disturbs: a
        non-blank trimmed name, trimmed defaults and parameter editors that
        keep their own invariant. The current values are free text. */
    predicate Valid() {
      && !IsBlank(name) && IsTrimmed(name)
      && IsTrimmed(defaultSource) && IsTrimmed(defaultFrequency) && IsTrimmed(defaultPower) && IsTrimmed(defaultMode)
      && forall k :: 0 <= k < |parameters| ==> parameters[k].Valid()
    }
  }

  /** Whether a configuration's name denotes an editor's name: equal
      ignoring case, after trimming the configuration's name when `trimmed`. */
  predicate NameMatches(configured: string, edited: string, trimmed: bool) {
    EqualsIgnoreCase(if trimmed then Trim(configured) else configured, edited)
  }

  /** Some editor among `editors` carries a name `configured` denotes. */
  predicate Covered(configured: string, editors: seq<P.ParameterEditor>, trimmed: bool) {
    exists j :: 0 <= j < |editors| && NameMatches(configured, editors[j].name, trimmed)
  }

  /** `ArgumentNullException.ThrowIfNull(parameter)` on one entry. */
  function NullError(p: Option<P.ParameterEditor>): (r: Option<Exception>)
    ensures r.None? <==> p.Some?
    ensures r.Some? ==> r.value == ArgumentNullException("parameter")
  {
    if p.None? then Some(ArgumentNullException("parameter")) else None
  }

  /** The constructor's `Select(parameter => { ThrowIfNull; Clone }).ToList()`:
      a missing entry throws; otherwise the list is copied. The clone of an
      editor built by its constructor is that editor (`CloneIsIdentity`), so
      the copies are the entries themselves. */
  function CopyAll(ps: seq<Option<P.ParameterEditor>>): (r: Result<seq<P.ParameterEditor>>)
    ensures r.Failure? <==> exists k :: 0 <= k < |ps| && ps[k].None?
    ensures r.Failure? ==> r.error == ArgumentNullException("parameter")
    ensures r.Success? ==> |r.value| == |ps| && forall k :: 0 <= k < |ps| ==> ps[k] == Some(r.value[k])
  {
    match FirstSome(ps, NullError)
    case Some(error) => Failure(error)
    case None => Success(seq(|ps|, k requires 0 <= k < |ps| && ps[k].Some? => ps[k].value))
  }

  /** Copying present editors gives them back. */
  lemma CopyAllPresent(ps: seq<P.ParameterEditor>)
    ensures CopyAll(Present(ps)) == Success(ps)
  {
    var wrapped := Present(ps);
    assert !exists k :: 0 <= k < |wrapped| && wrapped[k].None?;
    assert CopyAll(wrapped).Success?;
    var r := CopyAll(wrapped).value;
    assert forall k :: 0 <= k < |ps| ==> r[k] == ps[k] by {
      forall k | 0 <= k < |ps|
        ensures r[k] == ps[k]
      {
        assert Some(r[k]) == wrapped[k] == Some(ps[k]);
      }
    }
    assert r == ps;
  }

  /** Every editor of `ps`, as a non-null reference. */
  function Present<T>(ps: seq<T>): (r: seq<Option<T>>)
    ensures |r| == |ps| && forall k :: 0 <= k < |ps| ==> r[k] == Some(ps[k])
  {
    seq(|ps|, k requires 0 <= k < |ps| => Some(ps[k]))
  }

  /** The constructor: a blank name throws; the name and the defaults are
      trimmed (missing defaults become empty) and the current values start
      at the defaults; a missing connection editor becomes a fresh one; the
      parameter editors are cloned. */
  function NewDeviceEditor(
    name: string,
    defaultSource: Option<string>, defaultFrequency: Option<string>, defaultPower: Option<string>, defaultMode: Option<string>,
    parameters: Option<seq<Option<P.ParameterEditor>>>,
    connection: Option<C.ConnectionEditor>): (r: Result<DeviceEditor>)
    ensures IsBlank(name) ==> r == Failure(ArgumentException("name", NameRequiredMessage))
    ensures !IsBlank(name) && parameters.Some? && CopyAll(parameters.value).Failure? ==> r == Failure(CopyAll(parameters.value).error)
    ensures r.Success? <==> !IsBlank(name) && (parameters.None? || CopyAll(parameters.value).Success?)
    ensures r.Success? ==> r.value.name == Trim(name) && r.value.name != []
    ensures r.Success? ==> r.value.defaultSource == TrimOrEmpty(defaultSource) && r.value.defaultFrequency == TrimOrEmpty(defaultFrequency)
    ensures r.Success? ==> r.value.defaultPower == TrimOrEmpty(defaultPower) && r.value.defaultMode == TrimOrEmpty(defaultMode)
    ensures r.Success? ==> r.value.source == r.value.defaultSource && r.value.frequency == r.value.defaultFrequency
    ensures r.Success? ==> r.value.power == r.value.defaultPower && r.value.mode == r.value.defaultMode
    ensures r.Success? ==> r.value.connection == connection.GetOr(C.NewConnectionEditor(None, None, None))
    ensures r.Success? ==> r.value.parameters == if parameters.None? then [] else CopyAll(parameters.value).value
  {
    if IsBlank(name) then Failure(ArgumentException("name", NameRequiredMessage))
    else
      var editors :- if parameters.None? then Success([]) else CopyAll(parameters.value);
      var s := TrimOrEmpty(defaultSource);
      var f := TrimOrEmpty(defaultFrequency);
      var p := TrimOrEmpty(defaultPower);
      var m := TrimOrEmpty(defaultMode);
      Success(DeviceEditor(Trim(name), s, f, p, m, s, f, p, m, connection.GetOr(C.NewConnectionEditor(None, None, None)), editors))
  }

  /** `ResetToDefaults`: every current value back to its default, in the
      connection editor and in every parameter editor too. */
  function ResetToDefaults(e: DeviceEditor): (r: DeviceEditor)
    ensures r.name == e.name && r.source == e.defaultSource && r.frequency == e.defaultFrequency
    ensures r.power == e.defaultPower && r.mode == e.defaultMode
    ensures r.connection == C.ResetToDefault(e.connection)
    ensures |r.parameters| == |e.parameters|
    ensures forall k :: 0 <= k < |e.parameters| ==> r.parameters[k] == e.parameters[k].(value := e.parameters[k].defaultValue)
  {
    e.(source := e.defaultSource, frequency := e.defaultFrequency, power := e.defaultPower, mode := e.defaultMode,
       connection := C.ResetToDefault(e.connection),
       parameters := seq(|e.parameters|, k requires 0 <= k < |e.parameters| => P.ResetToDefault(e.parameters[k])))
  }

  /** The position of the first configuration parameter whose name
      denotes `name`, or the length when there is none. */
  function FirstMatch(configured: seq<DeviceParameter>, name: string, trimmed: bool): (i: nat)
    ensures i <= |configured|
    ensures forall j :: 0 <= j < i ==> !NameMatches(configured[j].name, name, trimmed)
    ensures i < |configured| ==> NameMatches(configured[i].name, name, trimmed)
    decreases |configured|
  {
    if |configured| == 0 || NameMatches(configured[0].name, name, trimmed) then 0
    else
      var rest := configured[1..];
      var i := FirstMatch(rest, name, trimmed);
      assert forall j :: 0 < j <= |rest| ==> configured[j] == rest[j - 1];
      1 + i
  }

  /** `FirstOrDefault(x => Equals(x.Name, name, OrdinalIgnoreCase))?.Value`:
      the value of the first matching configuration parameter. */
  function Matching(configured: seq<DeviceParameter>, name: string, trimmed: bool): (r: Option<string>)
    ensures r.None? <==> !exists k :: 0 <= k < |configured| && NameMatches(configured[k].name, name, trimmed)
    ensures r.Some? ==> r.value == configured[FirstMatch(configured, name, trimmed)].value
  {
    var i := FirstMatch(configured, name, trimmed);
    if i == |configured| then None else Some(configured[i].value)
  }

  /** The first loop of `Apply`: every existing editor takes the value of its
      matching configuration parameter, or its default when none matches. */
  function ApplyExisting(ps: seq<P.ParameterEditor>, configured: seq<DeviceParameter>, trimmed: bool): (r: seq<P.ParameterEditor>)
    ensures |r| == |ps|
    ensures forall k :: 0 <= k < |ps| ==> r[k].name == ps[k].name && r[k].defaultValue == ps[k].defaultValue
    ensures forall k :: 0 <= k < |ps| ==> r[k].value == TrimmedOr(Matching(configured, ps[k].name, trimmed), ps[k].defaultValue)
  {
    seq(|ps|, k requires 0 <= k < |ps| => P.Apply(ps[k], Matching(configured, ps[k].name, trimmed)))
  }

  /** The second loop of `Apply`: every configuration parameter that no
      current editor covers gets a new editor, set to its value and
      appended. A blank name makes the editor's constructor throw, which ends
      the loop with what it appended so far. */
  function AddMissing(current: seq<P.ParameterEditor>, configured: seq<DeviceParameter>, trimmed: bool): (r: Applied<seq<P.ParameterEditor>>)
    ensures |current| <= |r.state| && forall k :: 0 <= k < |current| ==> r.state[k] == current[k]
    decreases |configured|
  {
    if |configured| == 0 then Applied(current, None)
    else
      var a := configured[0];
      if Covered(a.name, current, trimmed) then AddMissing(current, configured[1..], trimmed)
      else
        match P.NewParameterEditor(a.name, Some(a.value))
        case Failure(error) => Applied(current, Some(error))
        case Success(editor) =>
          AddMissing(current + [P.Apply(editor, Some(a.value))], configured[1..], trimmed)
  }

  /** One step of the loop: a covered name is skipped, and an uncovered one
      either throws or appends its editor before the rest is looked at. */
  lemma AddMissingStep(current: seq<P.ParameterEditor>, configured: seq<DeviceParameter>, trimmed: bool)
    requires |configured| > 0
    ensures Covered(configured[0].name, current, trimmed) ==> AddMissing(current, configured, trimmed) == AddMissing(current, configured[1..], trimmed)
    ensures !Covered(configured[0].name, current, trimmed) && IsBlank(configured[0].name) ==>
      AddMissing(current, configured, trimmed) == Applied(current, Some(ArgumentException("name", P.NameRequiredMessage)))
    ensures !Covered(configured[0].name, current, trimmed) && !IsBlank(configured[0].name) ==>
      AddMissing(current, configured, trimmed) == AddMissing(current + [P.Apply(Built(configured[0]), Some(configured[0].value))], configured[1..], trimmed)
  {
  }

  /** `Apply`: no configuration resets everything; otherwise each setting
      takes the configuration's trimmed value or its default, the connection
      editor applies the configuration's connection, existing parameter
      editors take their matching values and missing ones are appended. The
      name and the defaults never change. */
  function Apply(e: DeviceEditor, configuration: Option<DeviceConfiguration>, trimmed: bool): (r: Applied<DeviceEditor>)
    ensures configuration.None? ==> r == Applied(ResetToDefaults(e), None)
    ensures r.state.name == e.name && r.state.defaultSource == e.defaultSource && r.state.defaultFrequency == e.defaultFrequency
    ensures r.state.defaultPower == e.defaultPower && r.state.defaultMode == e.defaultMode
    ensures configuration.Some? ==> r.state.source == TrimmedOr(configuration.value.source, e.defaultSource)
    ensures configuration.Some? ==> r.state.frequency == TrimmedOr(configuration.value.frequency, e.defaultFrequency)
    ensures configuration.Some? ==> r.state.power == TrimmedOr(configuration.value.power, e.defaultPower)
    ensures configuration.Some? ==> r.state.mode == TrimmedOr(configuration.value.mode, e.defaultMode)
    ensures configuration.Some? ==> r.state.connection == C.Apply(e.connection, configuration.value.connection)
    ensures configuration.Some? ==> r == Applied(r.state, AddMissing(ApplyExisting(e.parameters, configuration.value.parameters, trimmed), configuration.value.parameters, trimmed).failure)
    ensures configuration.Some? ==> r.state.parameters == AddMissing(ApplyExisting(e.parameters, configuration.value.parameters, trimmed), configuration.value.parameters, trimmed).state
  {
    match configuration
    case None => Applied(ResetToDefaults(e), None)
    case Some(c) =>
      var added := AddMissing(ApplyExisting(e.parameters, c.parameters, trimmed), c.parameters, trimmed);
      var updated := e.(
        source := TrimmedOr(c.source, e.defaultSource),
        frequency := TrimmedOr(c.frequency, e.defaultFrequency),
        power := TrimmedOr(c.power, e.defaultPower),
        mode := TrimmedOr(c.mode, e.defaultMode),
        connection := C.Apply(e.connection, c.connection),
        parameters := added.state);
      Applied(updated, added.failure)
  }

  /** `Represents`: a missing configuration throws; otherwise whether its
      name denotes the editor's name. */
  function Represents(e: DeviceEditor, configuration: Option<DeviceConfiguration>, trimmed: bool): (r: Result<bool>)
    ensures r.Failure? <==> configuration.None?
    ensures r.Failure? ==> r.error == ArgumentNullException("configuration")
    ensures r.Success? ==> (r.value <==> NameMatches(configuration.value.name, e.name, trimmed))
  {
    match configuration
    case None => Failure(ArgumentNullException("configuration"))
    case Some(c) => Success(NameMatches(c.name, e.name, trimmed))
  }

  /** Appending editors keeps every name covered. */
  lemma CoveredExtends(configured: string, editors: seq<P.ParameterEditor>, longer: seq<P.ParameterEditor>, trimmed: bool)
    requires |editors| <= |longer| && forall k :: 0 <= k < |editors| ==> longer[k] == editors[k]
    requires Covered(configured, editors, trimmed)
    ensures Covered(configured, longer, trimmed)
  {
    var j :| 0 <= j < |editors| && NameMatches(configured, editors[j].name, trimmed);
    assert longer[j] == editors[j];
  }

  /** Coverage depends only on the editors' names. */
  lemma CoveredByNames(configured: string, editors: seq<P.ParameterEditor>, renamed: seq<P.ParameterEditor>, trimmed: bool)
    requires |editors| == |renamed| && forall k :: 0 <= k < |editors| ==> editors[k].name == renamed[k].name
    ensures Covered(configured, editors, trimmed) <==> Covered(configured, renamed, trimmed)
  {
    if Covered(configured, editors, trimmed) {
      var j :| 0 <= j < |editors| && NameMatches(configured, editors[j].name, trimmed);
      assert NameMatches(configured, renamed[j].name, trimmed);
    }
    if Covered(configured, renamed, trimmed) {
      var j :| 0 <= j < |renamed| && NameMatches(configured, renamed[j].name, trimmed);
      assert NameMatches(configured, editors[j].name, trimmed);
    }
  }

  /** The added-editors loop fails only at an uncovered parameter with a
      blank name, with the parameter editor's constructor error; so with
      every name non-blank it never fails. */
  lemma {:induction false} AddMissingFailure(current: seq<P.ParameterEditor>, configured: seq<DeviceParameter>, trimmed: bool)
    ensures AddMissing(current, configured, trimmed).failure.Some? ==>
      && AddMissing(current, configured, trimmed).failure == Some(ArgumentException("name", P.NameRequiredMessage))
      && exists k :: 0 <= k < |configured| && IsBlank(configured[k].name)
    decreases |configured|
  {
    if |configured| > 0 {
      var a := configured[0];
      var rest := configured[1..];
      assert forall k :: 0 <= k < |rest| ==> rest[k] == configured[k + 1];
      if Covered(a.name, current, trimmed) {
        AddMissingFailure(current, rest, trimmed);
      } else if IsBlank(a.name) {
      } else {
        var editor := P.NewParameterEditor(a.name, Some(a.value)).value;
        AddMissingFailure(current + [P.Apply(editor, Some(a.value))], rest, trimmed);
      }
    }
  }

  /** With names trimmed before comparing, a loop that completes leaves every
      configuration parameter covered by some editor. */
  lemma {:induction false} AddMissingCovers(current: seq<P.ParameterEditor>, configured: seq<DeviceParameter>)
    requires AddMissing(current, configured, true).failure.None?
    ensures forall k :: 0 <= k < |configured| ==> Covered(configured[k].name, AddMissing(current, configured, true).state, true)
    decreases |configured|
  {
    if |configured| > 0 {
      var a := configured[0];
      var rest := configured[1..];
      var r := AddMissing(current, configured, true);
      AddMissingStep(current, configured, true);
      if Covered(a.name, current, true) {
        AddMissingCovers(current, rest);
        assert r == AddMissing(current, rest, true);
        CoveredExtends(a.name, current, r.state, true);
      } else {
        assert !IsBlank(a.name);
        var next := current + [P.Apply(Built(a), Some(a.value))];
        assert NameMatches(a.name, next[|current|].name, true);
        AddMissingCovers(next, rest);
        assert r == AddMissing(next, rest, true);
        CoveredExtends(a.name, next, r.state, true);
      }
      CoveredByParts(configured, r.state);
    }
  }

  /** The names of a list are all covered once its first one and those of
      the rest are. */
  lemma CoveredByParts(configured: seq<DeviceParameter>, editors: seq<P.ParameterEditor>)
    requires |configured| > 0 && Covered(configured[0].name, editors, true)
    requires forall k :: 0 <= k < |configured| - 1 ==> Covered(configured[1..][k].name, editors, true)
    ensures forall k :: 0 <= k < |configured| ==> Covered(configured[k].name, editors, true)
  {
    forall k | 0 < k < |configured|
      ensures Covered(configured[k].name, editors, true)
    {
      assert configured[k] == configured[1..][k - 1];
    }
  }

  /** When every configuration parameter is already covered the loop adds
      nothing and does not fail. */
  lemma {:induction false} AddMissingNothingWhenCovered(current: seq<P.ParameterEditor>, configured: seq<DeviceParameter>, trimmed: bool)
    requires forall k :: 0 <= k < |configured| ==> Covered(configured[k].name, current, trimmed)
    ensures AddMissing(current, configured, trimmed) == Applied(current, None)
    decreases |configured|
  {
    if |configured| > 0 {
      assert Covered(configured[0].name, current, trimmed);
      var rest := configured[1..];
      assert forall k :: 0 <= k < |rest| ==> rest[k] == configured[k + 1];
      AddMissingNothingWhenCovered(current, rest, trimmed);
    }
  }

  /** The parameter editors `FromConfiguration` builds, one per configuration
      parameter and in order, each holding the parameter's value as its
      default; the first blank name throws. */
  function NewEditors(configured: seq<DeviceParameter>): (r: Result<seq<P.ParameterEditor>>)
    ensures r.Failure? <==> exists k :: 0 <= k < |configured| && IsBlank(configured[k].name)
    ensures r.Failure? ==> r.error == ArgumentException("name", P.NameRequiredMessage)
    ensures r.Success? ==> |r.value| == |configured|
    ensures r.Success? ==> forall k :: 0 <= k < |configured| ==> r.value[k] == Built(configured[k])
  {
    match FirstSome(configured, BlankNameError)
    case Some(error) => Failure(error)
    case None => Success(seq(|configured|, k requires 0 <= k < |configured| && !IsBlank(configured[k].name) => Built(configured[k])))
  }

  /** The constructor's error for a configuration parameter, if any. */
  function BlankNameError(p: DeviceParameter): (r: Option<Exception>)
    ensures r.None? <==> !IsBlank(p.name)
    ensures r.Some? ==> r.value == ArgumentException("name", P.NameRequiredMessage)
  {
    if IsBlank(p.name) then Some(ArgumentException("name", P.NameRequiredMessage)) else None
  }

  /** The editor the constructor builds for a configuration parameter with
      a non-blank name. */
  function Built(p: DeviceParameter): (r: P.ParameterEditor)
    requires !IsBlank(p.name)
    ensures P.NewParameterEditor(p.name, Some(p.value)) == Success(r)
  {
    P.NewParameterEditor(p.name, Some(p.value)).value
  }

  /** `FromConfiguration`: a missing configuration throws; the parameter
      editors are built first (a blank parameter name throws), then the
      device editor with the configuration's name and settings as defaults
      and its connection as the connection editor's defaults (a blank device
      name throws); finally the configuration is applied. */
  function FromConfiguration(configuration: Option<DeviceConfiguration>, trimmed: bool): (r: Result<DeviceEditor>)
    ensures configuration.None? ==> r == Failure(ArgumentNullException("configuration"))
    ensures configuration.Some? && NewEditors(configuration.value.parameters).Failure? ==>
      r == Failure(NewEditors(configuration.value.parameters).error)
    ensures configuration.Some? && NewEditors(configuration.value.parameters).Success? && IsBlank(configuration.value.name) ==>
      r == Failure(ArgumentException("name", NameRequiredMessage))
    ensures r.Success? <==> configuration.Some? && NewEditors(configuration.value.parameters).Success? && !IsBlank(configuration.value.name)
    ensures r.Success? ==> r.value.name == Trim(configuration.value.name)
  {
    match configuration
    case None => Failure(ArgumentNullException("configuration"))
    case Some(c) =>
      var editors :- NewEditors(c.parameters);
      var device :- Unapplied(c, editors);
      var applied := Apply(device, Some(c), trimmed);
      AddMissingFailure(ApplyExisting(device.parameters, c.parameters, trimmed), c.parameters, trimmed);
      match applied.failure
      case None => Success(applied.state)
      case Some(error) => Failure(error)
  }

  /** The device editor `FromConfiguration` constructs before applying the
      configuration: the configuration's name, settings as defaults, the
      given parameter editors and a connection editor whose defaults are the
      configuration's connection. */
  function Unapplied(c: DeviceConfiguration, editors: seq<P.ParameterEditor>): (r: Result<DeviceEditor>)
    ensures r.Success? <==> !IsBlank(c.name)
    ensures r.Success? ==> r.value.parameters == editors
    ensures (forall k :: 0 <= k < |editors| ==> editors[k].Valid()) && r.Success? ==> r.value.Valid()
  {
    var connection := match c.connection
      case None => C.NewConnectionEditor(None, None, None)
      case Some(k) => C.NewConnectionEditor(k.protocol, k.host, k.port);
    CopyAllPresent(editors);
    var r := NewDeviceEditor(c.name, c.source, c.frequency, c.power, c.mode, Some(Present(editors)), Some(connection));
    TrimIsTrimmed(c.name);
    TrimmedBlankIsEmpty(c.name);
    TrimOrEmptyIsTrimmed(c.source);
    TrimOrEmptyIsTrimmed(c.frequency);
    TrimOrEmptyIsTrimmed(c.power);
    TrimOrEmptyIsTrimmed(c.mode);
    r
  }

  /** A name that trimming changes is not equal, ignoring case, to its
      trimmed form: the two differ in length. */
  lemma PaddedNameDiffers(n: string)
    requires Trim(n) != n
    ensures !EqualsIgnoreCase(n, Trim(n))
  {
    var i := TrimIsInfix(n);
    assert |Lower(n)| != |Lower(Trim(n))|;
  }

  /** The parameter editors of the editor `FromConfiguration` returns:
      those built from the configuration, then applied to it. */
  lemma FromConfigurationParameters(c: DeviceConfiguration, trimmed: bool)
    requires FromConfiguration(Some(c), trimmed).Success?
    ensures NewEditors(c.parameters).Success?
    ensures FromConfiguration(Some(c), trimmed).value.parameters
         == AddMissing(ApplyExisting(NewEditors(c.parameters).value, c.parameters, trimmed), c.parameters, trimmed).state
  {
    CopyAllPresent(NewEditors(c.parameters).value);
  }

  /** One uncovered parameter with a non-blank name: the loop appends its
      editor, set to its value. */
  lemma AddMissingOne(current: seq<P.ParameterEditor>, a: DeviceParameter, trimmed: bool)
    requires !Covered(a.name, current, trimmed) && !IsBlank(a.name)
    ensures AddMissing(current, [a], trimmed) == Applied(current + [P.Apply(Built(a), Some(a.value))], None)
  {
    assert [a][1..] == [];
  }

  /** As written: a configuration holding one parameter whose name carries
      surrounding whitespace yields an editor with two parameter editors,
      the constructed one under the trimmed name and a second one added by
      `Apply`, which does not recognise the trimmed name. */
  lemma UntrimmedParameterDuplicates(c: DeviceConfiguration)
    requires !IsBlank(c.name) && |c.parameters| == 1
    requires !IsBlank(c.parameters[0].name) && Trim(c.parameters[0].name) != c.parameters[0].name
    ensures FromConfiguration(Some(c), false).Success?
    ensures |FromConfiguration(Some(c), false).value.parameters| == 2
  {
    var a := c.parameters[0];
    assert c.parameters == [a];
    assert NewEditors(c.parameters).Success?;
    FromConfigurationParameters(c, false);
    var existing := ApplyExisting(NewEditors(c.parameters).value, c.parameters, false);
    assert existing[0].name == Trim(a.name);
    PaddedNameDiffers(a.name);
    NotCoveredByOne(a.name, existing, false);
    AddMissingOne(existing, a, false);
  }

  /** A single editor covers exactly the names that match its own. */
  lemma NotCoveredByOne(configured: string, editors: seq<P.ParameterEditor>, trimmed: bool)
    requires |editors| == 1 && !NameMatches(configured, editors[0].name, trimmed)
    ensures !Covered(configured, editors, trimmed)
  {
  }

  /** Corrected: comparing trimmed names, `FromConfiguration` yields exactly
      one parameter editor per configuration parameter, in order, under the
      parameter's trimmed name. */
  lemma FromConfigurationOnePerParameter(c: DeviceConfiguration)
    requires FromConfiguration(Some(c), true).Success?
    ensures |FromConfiguration(Some(c), true).value.parameters| == |c.parameters|
    ensures forall k :: 0 <= k < |c.parameters| ==>
      FromConfiguration(Some(c), true).value.parameters[k].name == Trim(c.parameters[k].name)
  {
    FromConfigurationParameters(c, true);
    var built := NewEditors(c.parameters).value;
    var existing := ApplyExisting(built, c.parameters, true);
    forall k | 0 <= k < |c.parameters|
      ensures existing[k].name == Trim(c.parameters[k].name)
      ensures Covered(c.parameters[k].name, existing, true)
    {
      assert built[k] == Built(c.parameters[k]);
      assert NameMatches(c.parameters[k].name, existing[k].name, true);
    }
    AddMissingNothingWhenCovered(existing, c.parameters, true);
    assert FromConfiguration(Some(c), true).value.parameters == existing;
  }

  /** Editors that already cover every configuration parameter take their
      values and gain no sibling. */
  lemma ReapplyParameters(ps: seq<P.ParameterEditor>, configured: seq<DeviceParameter>)
    requires forall k :: 0 <= k < |configured| ==> Covered(configured[k].name, ps, true)
    ensures AddMissing(ApplyExisting(ps, configured, true), configured, true) == Applied(ApplyExisting(ps, configured, true), None)
  {
    var existing := ApplyExisting(ps, configured, true);
    forall k | 0 <= k < |configured| {
      CoveredByNames(configured[k].name, ps, existing, true);
    }
    AddMissingNothingWhenCovered(existing, configured, true);
  }

  /** After an application that completed, every configuration parameter is
      covered by the editor's parameter editors. */
  lemma CoveredAfterApply(e: DeviceEditor, c: DeviceConfiguration)
    requires Apply(e, Some(c), true).failure.None?
    ensures forall k :: 0 <= k < |c.parameters| ==> Covered(c.parameters[k].name, Apply(e, Some(c), true).state.parameters, true)
  {
    AddMissingCovers(ApplyExisting(e.parameters, c.parameters, true), c.parameters);
  }

  /** Corrected: applying a configuration a second time, after a first
      application that completed, adds no parameter editor and keeps their
      names. */
  lemma ReapplyAddsNothing(e: DeviceEditor, c: DeviceConfiguration)
    requires Apply(e, Some(c), true).failure.None?
    ensures Apply(Apply(e, Some(c), true).state, Some(c), true).failure.None?
    ensures |Apply(Apply(e, Some(c), true).state, Some(c), true).state.parameters| == |Apply(e, Some(c), true).state.parameters|
    ensures forall k :: 0 <= k < |Apply(e, Some(c), true).state.parameters| ==>
      Apply(Apply(e, Some(c), true).state, Some(c), true).state.parameters[k].name == Apply(e, Some(c), true).state.parameters[k].name
  {
    var once := Apply(e, Some(c), true).state;
    CoveredAfterApply(e, c);
    ReapplyParameters(once.parameters, c.parameters);
  }

  /** As written: the editor built from a device whose name carries
      surrounding whitespace does not represent that device. */
  lemma UntrimmedNameNotRepresented(c: DeviceConfiguration)
    requires Trim(c.name) != c.name && FromConfiguration(Some(c), false).Success?
    ensures Represents(FromConfiguration(Some(c), false).value, Some(c), false) == Success(false)
  {
    PaddedNameDiffers(c.name);
  }

  /** Corrected: comparing trimmed names, the editor built from a device
      represents it. */
  lemma FromConfigurationRepresents(c: DeviceConfiguration)
    requires FromConfiguration(Some(c), true).Success?
    ensures Represents(FromConfiguration(Some(c), true).value, Some(c), true) == Success(true)
  {
    assert NameMatches(c.name, Trim(c.name), true);
  }

  /** `CurrentOrDefault` in the page code and the element helpers: the
      trimmed current value, or the default when the current value is blank;
      nothing when that is blank as well. */
  function CurrentOrDefault(value: Option<string>, fallback: string): (r: Option<string>)
    ensures r.None? <==> IsNullOrWhiteSpace(value) && IsBlank(fallback)
    ensures !IsNullOrWhiteSpace(value) ==> r == NullIfBlank(value)
    ensures IsNullOrWhiteSpace(value) && !IsBlank(fallback) ==> r == Some(fallback)
  {
    NonBlank(TrimmedOr(value, fallback))
  }

  /** One parameter's `<Parameter>` element, present when its effective
      value is not blank; the name is written as the editor holds it. */
  function ParameterEntry(p: P.ParameterEditor): (r: seq<Element>)
    ensures r == [] <==> IsBlank(P.ValueOrDefault(p))
    ensures |r| <= 1 && AllNamed(r, Parameter)
    ensures r != [] ==> AttributeValue(r[0].attributes, NameAttribute) == Some(p.name)
    ensures r != [] ==> AttributeValue(r[0].attributes, ValueAttribute) == Some(P.ValueOrDefault(p))
  {
    var value := P.ValueOrDefault(p);
    if IsBlank(value) then []
    else [Element(Parameter, [Attribute(NameAttribute, p.name), Attribute(ValueAttribute, value)], [], [])]
  }

  /** The `<Parameter>` elements of all parameter editors, in order. */
  function ParameterEntries(ps: seq<P.ParameterEditor>): (r: seq<Element>)
    ensures AllNamed(r, Parameter)
  {
    var r := FlatMap(ps, ParameterEntry);
    assert AllNamed(r, Parameter) by {
      forall k | 0 <= k < |r|
        ensures r[k].name == Parameter
      {
        FlatMapMembers(ps, ParameterEntry, r[k]);
      }
    }
    r
  }

  /** The connection editor's element, when it writes one. */
  function ConnectionEntry(c: C.ConnectionEditor): (r: seq<Element>)
    ensures |r| <= 1 && AllNamed(r, Connection)
    ensures r == [] <==> C.ToXElement(c).None?
    ensures r != [] ==> r[0] == C.ToXElement(c).value
  {
    match C.ToXElement(c)
    case None => []
    case Some(element) => [element]
  }

  /** The children of the `<Device>` element: Frequency, Power and Mode,
      the connection, then the parameters. */
  function Children(e: DeviceEditor): seq<Element> {
    OptionalLeaf(Frequency, CurrentOrDefault(Some(e.frequency), e.defaultFrequency))
      + OptionalLeaf(Power, CurrentOrDefault(Some(e.power), e.defaultPower))
      + OptionalLeaf(Mode, CurrentOrDefault(Some(e.mode), e.defaultMode))
      + ConnectionEntry(e.connection)
      + ParameterEntries(e.parameters)
  }

  /** `ToXElement`: a `<Device>` element carrying the editor's name and, when
      not blank, its effective source. */
  function ToXElement(e: DeviceEditor): (r: Element)
    ensures r.name == Device
    ensures AttributeValue(r.attributes, NameAttribute) == Some(e.name)
    ensures AttributeValue(r.attributes, SourceAttribute) == CurrentOrDefault(Some(e.source), e.defaultSource)
  {
    Element(Device, [Attribute(NameAttribute, e.name)] + OptionalAttribute(SourceAttribute, CurrentOrDefault(Some(e.source), e.defaultSource)), Children(e), [])
  }

  /** Reading the element back: each of Frequency, Power and Mode holds the
      effective value and is absent when that is blank; the connection
      editor's element and one `<Parameter>` element per parameter with a
      non-blank effective value follow. */
  lemma ElementReadBack(e: DeviceEditor)
    ensures ChildText(ToXElement(e), Frequency) == CurrentOrDefault(Some(e.frequency), e.defaultFrequency)
    ensures ChildText(ToXElement(e), Power) == CurrentOrDefault(Some(e.power), e.defaultPower)
    ensures ChildText(ToXElement(e), Mode) == CurrentOrDefault(Some(e.mode), e.defaultMode)
    ensures Named(ToXElement(e).children, Connection) == ConnectionEntry(e.connection)
    ensures Named(ToXElement(e).children, Parameter) == ParameterEntries(e.parameters)
  {
    var x := ToXElement(e);
    var fv := CurrentOrDefault(Some(e.frequency), e.defaultFrequency);
    var pv := CurrentOrDefault(Some(e.power), e.defaultPower);
    var mv := CurrentOrDefault(Some(e.mode), e.defaultMode);
    var f := OptionalLeaf(Frequency, fv);
    var p := OptionalLeaf(Power, pv);
    var m := OptionalLeaf(Mode, mv);
    var c := ConnectionEntry(e.connection);
    var ps := ParameterEntries(e.parameters);
    assert x.children == f + p + m + c + ps;
    ConfigurationExport.SelectPart(f, p, m, c, ps, Frequency);
    LeafText(x, Frequency, fv);
    ConfigurationExport.SelectPart(f, p, m, c, ps, Power);
    LeafText(x, Power, pv);
    ConfigurationExport.SelectPart(f, p, m, c, ps, Mode);
    LeafText(x, Mode, mv);
    ConfigurationExport.SelectPart(f, p, m, c, ps, Connection);
    ConfigurationExport.SelectPart(f, p, m, c, ps, Parameter);
  }

  /** The loop adds only editors that keep their invariant. */
  lemma {:induction false} AddMissingValid(current: seq<P.ParameterEditor>, configured: seq<DeviceParameter>, trimmed: bool)
    requires forall k :: 0 <= k < |current| ==> current[k].Valid()
    ensures forall k :: 0 <= k < |AddMissing(current, configured, trimmed).state| ==> AddMissing(current, configured, trimmed).state[k].Valid()
    decreases |configured|
  {
    if |configured| > 0 {
      var a := configured[0];
      var r := AddMissing(current, configured, trimmed);
      AddMissingStep(current, configured, trimmed);
      if Covered(a.name, current, trimmed) {
        AddMissingValid(current, configured[1..], trimmed);
        assert r == AddMissing(current, configured[1..], trimmed);
      } else if IsBlank(a.name) {
        assert r.state == current;
      } else {
        var next := current + [P.Apply(Built(a), Some(a.value))];
        AppendBuiltValid(current, a);
        AddMissingValid(next, configured[1..], trimmed);
        assert r == AddMissing(next, configured[1..], trimmed);
      }
    }
  }

  /** Appending the editor built for a parameter with a non-blank name keeps
      every editor valid. */
  lemma AppendBuiltValid(current: seq<P.ParameterEditor>, a: DeviceParameter)
    requires !IsBlank(a.name)
    requires forall k :: 0 <= k < |current| ==> current[k].Valid()
    ensures forall k :: 0 <= k < |current| + 1 ==> (current + [P.Apply(Built(a), Some(a.value))])[k].Valid()
  {
    var added := P.Apply(Built(a), Some(a.value));
    assert added.Valid();
    var next := current + [added];
    forall k | 0 <= k < |next|
      ensures next[k].Valid()
    {
      if k < |current| {
        assert next[k] == current[k];
      } else {
        assert next[k] == added;
      }
    }
  }

  /** Applying a configuration, or none, keeps the editor's invariant, even
      when the added-editors loop stops part-way. */
  lemma ApplyKeepsValid(e: DeviceEditor, configuration: Option<DeviceConfiguration>, trimmed: bool)
    requires e.Valid()
    ensures Apply(e, configuration, trimmed).state.Valid()
  {
    if configuration.Some? {
      var c := configuration.value;
      var existing := ApplyExisting(e.parameters, c.parameters, trimmed);
      assert forall k :: 0 <= k < |existing| ==> existing[k].Valid();
      AddMissingValid(existing, c.parameters, trimmed);
    }
  }

  /** Resetting keeps the editor's invariant. */
  lemma ResetKeepsValid(e: DeviceEditor)
    requires e.Valid()
    ensures ResetToDefaults(e).Valid()
  {
  }

  /** The editor `FromConfiguration` returns is the constructed editor with
      the configuration applied. */
  lemma FromConfigurationApplies(c: DeviceConfiguration, trimmed: bool)
    requires FromConfiguration(Some(c), trimmed).Success?
    ensures NewEditors(c.parameters).Success? && Unapplied(c, NewEditors(c.parameters).value).Success?
    ensures FromConfiguration(Some(c), trimmed).value == Apply(Unapplied(c, NewEditors(c.parameters).value).value, Some(c), trimmed).state
  {
    var device := Unapplied(c, NewEditors(c.parameters).value).value;
    assert Apply(device, Some(c), trimmed).failure.None?;
  }

  /** The editors built from a configuration keep their invariant. */
  lemma NewEditorsValid(configured: seq<DeviceParameter>)
    requires NewEditors(configured).Success?
    ensures forall k :: 0 <= k < |configured| ==> NewEditors(configured).value[k].Valid()
  {
  }

  /** An editor built from a configuration keeps the invariant. */
  lemma FromConfigurationIsValid(c: DeviceConfiguration, trimmed: bool)
    requires FromConfiguration(Some(c), trimmed).Success?
    ensures FromConfiguration(Some(c), trimmed).value.Valid()
  {
    FromConfigurationApplies(c, trimmed);
    NewEditorsValid(c.parameters);
    ApplyKeepsValid(Unapplied(c, NewEditors(c.parameters).value).value, Some(c), trimmed);
  }

  /** `Apply` fails only when the configuration holds a parameter with a
      blank name, and then with the parameter editor's constructor error;
      the settings and connection are applied regardless. */
  lemma ApplyFailure(e: DeviceEditor, c: DeviceConfiguration, trimmed: bool)
    ensures Apply(e, Some(c), trimmed).failure.Some? ==>
      && Apply(e, Some(c), trimmed).failure == Some(ArgumentException("name", P.NameRequiredMessage))
      && exists k :: 0 <= k < |c.parameters| && IsBlank(c.parameters[k].name)
  {
    AddMissingFailure(ApplyExisting(e.parameters, c.parameters, trimmed), c.parameters, trimmed);
  }

  /** `Apply` keeps the existing parameter editors, in order and under their
      names, and only appends. */
  lemma ApplyKeepsEditors(e: DeviceEditor, c: DeviceConfiguration, trimmed: bool)
    ensures |e.parameters| <= |Apply(e, Some(c), trimmed).state.parameters|
    ensures forall k :: 0 <= k < |e.parameters| ==> Apply(e, Some(c), trimmed).state.parameters[k].name == e.parameters[k].name
  {
    var existing := ApplyExisting(e.parameters, c.parameters, trimmed);
    var r := Apply(e, Some(c), trimmed).state.parameters;
    assert forall k :: 0 <= k < |existing| ==> r[k] == existing[k];
  }
}
