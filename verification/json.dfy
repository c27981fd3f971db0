/** A JSON document tree and the element accessors of System.Text.Json that
    the OpenTAP parser uses: property lookup, string reading and the
    exception an accessor throws when applied to an element of the wrong
    kind. Numbers are kept as their literal text; their value is never read.
 */
module JsonTree {
  import opened Wrappers

  datatype Json =
    | Null
    | Bool(b: bool)
    | Number(literal: string)
    | Str(s: string)
    | Array(items: seq<Json>)
    | Object(members: seq<Member>)

  /** One `"key": value` member of an object, in document order. */
  datatype Member = Member(key: string, value: Json)

  /** The `JsonValueKind` name of an element. */
  function KindName(j: Json): string {
    match j
    case Null => "Null"
    case Bool(b) => if b then "True" else "False"
    case Number(_) => "Number"
    case Str(_) => "String"
    case Array(_) => "Array"
    case Object(_) => "Object"
  }

  /** The `InvalidOperationException` an accessor throws when it needs an
      element of kind `required` and is given `j`. */
  function WrongKind(required: string, j: Json): Exception {
    InvalidOperationException("The requested operation requires an element of type '" + required
      + "', but the target element has type '" + KindName(j) + "'.")
  }

  /** Index of the member named `key` that property lookup finds: when a
      name is repeated, the last definition is the one matched. */
  function LastIndexOf(members: seq<Member>, key: string): (r: Option<nat>)
    ensures r.None? <==> forall k :: 0 <= k < |members| ==> members[k].key != key
    ensures r.Some? ==> r.value < |members| && members[r.value].key == key
    ensures r.Some? ==> forall k :: r.value < k < |members| ==> members[k].key != key
  {
    if |members| == 0 then None
    else if members[|members| - 1].key == key then Some(|members| - 1)
    else LastIndexOf(members[..|members| - 1], key)
  }

  /** The value of property `key` of an object's members, if present. */
  function Lookup(members: seq<Member>, key: string): (r: Option<Json>)
    ensures r.None? <==> forall k :: 0 <= k < |members| ==> members[k].key != key
    ensures r.Some? ==> exists k :: 0 <= k < |members| && members[k].key == key && members[k].value == r.value
  {
    match LastIndexOf(members, key)
    case None => None
    case Some(i) => Some(members[i].value)
  }

  /** A later definition of a property overrides every earlier one. */
  lemma LookupLastWins(members: seq<Member>, key: string, v: Json)
    ensures Lookup(members + [Member(key, v)], key) == Some(v)
  {
  }

  /** Members with other names do not affect the lookup of `key`. */
  lemma {:induction false} LookupSkipsOthers(members: seq<Member>, others: seq<Member>, key: string)
    requires forall k :: 0 <= k < |others| ==> others[k].key != key
    ensures Lookup(members + others, key) == Lookup(members, key)
    decreases |others|
  {
    if |others| > 0 {
      var shorter := others[..|others| - 1];
      assert (members + others)[..|members + others| - 1] == members + shorter;
      LookupSkipsOthers(members, shorter, key);
    } else {
      assert members + others == members;
    }
  }

  /** `JsonElement.TryGetProperty`: the property's value, if any, of an
      object; any other kind of element throws. */
  function TryGetProperty(j: Json, key: string): (r: Result<Option<Json>>)
    ensures r.Failure? <==> !j.Object?
    ensures r.Failure? ==> r.error == WrongKind("Object", j)
    ensures r.Success? ==> r.value == Lookup(j.members, key)
  {
    if j.Object? then Success(Lookup(j.members, key)) else Failure(WrongKind("Object", j))
  }

  /** `JsonElement.GetString`: the text of a string, null for a JSON null;
      any other kind of element throws. */
  function GetString(j: Json): (r: Result<Option<string>>)
    ensures r.Failure? <==> !(j.Str? || j.Null?)
    ensures r.Failure? ==> r.error == WrongKind("String", j)
    ensures r.Success? ==> (r.value.Some? <==> j.Str?)
    ensures r.Success? && j.Str? ==> r.value == Some(j.s)
  {
    match j
    case Str(s) => Success(Some(s))
    case Null => Success(None)
    case _ => Failure(WrongKind("String", j))
  }
}
