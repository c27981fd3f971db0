/** `ParameterEditorViewModel`: one editable parameter with a default.
    The editor is a value; each mutator returns the updated editor. */
module ParameterEditors {
  import opened Wrappers
  import opened Text

  const NameRequiredMessage: string := "Parameter name cannot be null or whitespace."

  datatype ParameterEditor = ParameterEditor(name: string, defaultValue: string, value: string) {
    /** What the constructor establishes and no mutator disturbs: a
        non-blank trimmed name and a trimmed default. The current value is
        free text. */
    predicate Valid() {
      !IsBlank(name) && IsTrimmed(name) && IsTrimmed(defaultValue)
    }
  }

  /** The constructor: a blank name throws; the name and the default are
      trimmed (a missing default becomes empty) and the value starts at the
      default. */
  function NewParameterEditor(name: string, defaultValue: Option<string>): (r: Result<ParameterEditor>)
    ensures r.Failure? <==> IsBlank(name)
    ensures r.Failure? ==> r.error == ArgumentException("name", NameRequiredMessage)
    ensures r.Success? ==> r.value.Valid() && r.value.value == r.value.defaultValue
    ensures r.Success? ==> r.value.name == Trim(name) && r.value.defaultValue == TrimOrEmpty(defaultValue)
  {
    if IsBlank(name) then Failure(ArgumentException("name", NameRequiredMessage))
    else
      TrimmedBlankIsEmpty(name);
      TrimIsTrimmed(name);
      var d := TrimOrEmpty(defaultValue);
      assert IsTrimmed(d) by {
        if defaultValue.Some? {
          TrimIsTrimmed(defaultValue.value);
        }
      }
      Success(ParameterEditor(Trim(name), d, d))
  }

  /** `ValueOrDefault`: the trimmed value, or the default when the value is
      blank. */
  function ValueOrDefault(p: ParameterEditor): (r: string)
    ensures IsBlank(p.value) ==> r == p.defaultValue
    ensures !IsBlank(p.value) ==> r == Trim(p.value) && !IsBlank(r)
    ensures IsTrimmed(p.defaultValue) ==> IsTrimmed(r)
  {
    TrimIsTrimmed(p.value);
    TrimmedOr(Some(p.value), p.defaultValue)
  }

  /** `ResetToDefault`. */
  function ResetToDefault(p: ParameterEditor): (r: ParameterEditor)
    ensures r.name == p.name && r.defaultValue == p.defaultValue
    ensures ValueOrDefault(r) == (if IsBlank(p.defaultValue) then p.defaultValue else Trim(p.defaultValue))
  {
    p.(value := p.defaultValue)
  }

  /** `Apply`: a missing or blank value restores the default, anything else
      is stored trimmed; the name and default never change. */
  function Apply(p: ParameterEditor, value: Option<string>): (r: ParameterEditor)
    ensures r.name == p.name && r.defaultValue == p.defaultValue
    ensures IsNullOrWhiteSpace(value) ==> r.value == p.defaultValue
    ensures !IsNullOrWhiteSpace(value) ==> r.value == Trim(value.value)
    ensures p.Valid() ==> r.Valid()
  {
    p.(value := TrimmedOr(value, p.defaultValue))
  }

  /** `Clone`: the constructor on the editor's own name and default, with
      the current value copied. */
  function Clone(p: ParameterEditor): (r: Result<ParameterEditor>)
    ensures r.Success? <==> !IsBlank(p.name)
    ensures r.Success? ==> r.value.name == Trim(p.name) && r.value.defaultValue == Trim(p.defaultValue) && r.value.value == p.value
  {
    var copy :- NewParameterEditor(p.name, Some(p.defaultValue));
    Success(copy.(value := p.value))
  }

  /** Cloning an editor built by the constructor gives an equal editor. */
  lemma CloneIsIdentity(p: ParameterEditor)
    requires p.Valid()
    ensures Clone(p) == Success(p)
  {
    TrimOfTrimmed(p.name);
    TrimOfTrimmed(p.defaultValue);
  }

  /** Resetting is applying nothing. */
  lemma ResetIsApplyingNothing(p: ParameterEditor)
    ensures ResetToDefault(p) == Apply(p, None)
  {
  }

  /** Applying the same value twice is applying it once. */
  lemma ApplyIdempotent(p: ParameterEditor, value: Option<string>)
    ensures Apply(Apply(p, value), value) == Apply(p, value)
  {
  }

  /** After applying a missing or blank value, the effective value is the
      default. */
  lemma ApplyBlankRestoresDefault(p: ParameterEditor, value: Option<string>)
    requires p.Valid() && IsNullOrWhiteSpace(value)
    ensures ValueOrDefault(Apply(p, value)) == p.defaultValue
  {
  }

  /** After applying a non-blank value, the effective value is that value,
      trimmed. */
  lemma ApplyValueIsEffective(p: ParameterEditor, value: Option<string>)
    ensures !IsNullOrWhiteSpace(value) ==> ValueOrDefault(Apply(p, value)) == Trim(value.value)
  {
    match value
    case None =>
    case Some(v) =>
      if !IsBlank(v) {
        StoredValueIsEffective(Apply(p, Some(v)), v);
      }
  }

  /** A stored value that is a non-blank trim is the effective value. */
  lemma StoredValueIsEffective(p: ParameterEditor, v: string)
    requires p.value == Trim(v) && !IsBlank(v)
    ensures ValueOrDefault(p) == Trim(v)
  {
    TrimIdempotent(v);
  }
}
