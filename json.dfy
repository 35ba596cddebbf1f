/** An already-parsed JSON document (the value shapes of RFC 8259, section 3) and
    the three System.Text.Json accessors the metadata normaliser uses:
    `JsonElement.GetProperty`, `JsonElement.TryGetProperty`, `JsonElement.GetString`,
    plus `JsonElement.EnumerateArray`. Each accessor that can throw returns a
    `Result` whose failure branch is the exception. */
module Json {
  import opened Wrappers

  /** Numbers are kept as their literal text: the normaliser never reads one. Object
      members keep their document order, duplicates included. */
  datatype Json =
    | JNull
    | JBool(b: bool)
    | JNumber(literal: string)
    | JString(s: string)
    | JArray(items: seq<Json>)
    | JObject(members: seq<(string, Json)>)

  /** The name of the element's `JsonValueKind`. */
  function KindName(j: Json): string {
    match j
    case JNull => "Null"
    case JBool(b) => if b then "True" else "False"
    case JNumber(_) => "Number"
    case JString(_) => "String"
    case JArray(_) => "Array"
    case JObject(_) => "Object"
  }

  /** The exceptions the accessors throw: `InvalidOperationException` when the element
      has the wrong kind, `KeyNotFoundException` when `GetProperty` finds no member. */
  datatype JsonError =
    | WrongKind(expected: string, actual: string)
    | PropertyMissing(name: string)

  function ErrorMessage(e: JsonError): string {
    match e
    case WrongKind(expected, actual) =>
      "The requested operation requires an element of type '" + expected
      + "', but the target element has type '" + actual + "'."
    case PropertyMissing(_) => "The given key was not present in the dictionary."
  }

  /** The position of the LAST member called `name`: System.Text.Json matches the last
      definition of a repeated property, comparing names ordinally. */
  function LastIndexOf(members: seq<(string, Json)>, name: string): (r: Option<nat>)
    ensures r.Some? ==> r.value < |members| && members[r.value].0 == name
    ensures r.Some? ==> forall k :: r.value < k < |members| ==> members[k].0 != name
    ensures r.None? <==> forall k :: 0 <= k < |members| ==> members[k].0 != name
  {
    if |members| == 0 then None
    else if members[|members| - 1].0 == name then Some(|members| - 1)
    else LastIndexOf(members[..|members| - 1], name)
  }

  /** Whether the object `j` has a member called `name`. */
  predicate HasMember(j: Json, name: string)
    requires j.JObject?
  {
    exists k :: 0 <= k < |j.members| && j.members[k].0 == name
  }

  /** `TryGetProperty`: throws on a non-object, otherwise finds the member or reports none. */
  function TryGetProperty(j: Json, name: string): (r: Result<Option<Json>, JsonError>)
    ensures r.Failure? <==> !j.JObject?
    ensures r.Failure? ==> r.error == WrongKind("Object", KindName(j))
    ensures r.Success? ==> (r.value.Some? <==> HasMember(j, name))
    ensures r.Success? && r.value.Some? ==>
      exists k :: 0 <= k < |j.members| && j.members[k] == (name, r.value.value)
    ensures r.Success? && r.value.Some? ==>
      LastIndexOf(j.members, name).Some? && r.value.value == j.members[LastIndexOf(j.members, name).value].1
  {
    match j
    case JObject(members) =>
      var i := LastIndexOf(members, name);
      if i.None? then Success(None) else Success(Some(members[i.value].1))
    case _ => Failure(WrongKind("Object", KindName(j)))
  }

  /** `GetProperty`: like `TryGetProperty`, but a missing member is an exception too. */
  function GetProperty(j: Json, name: string): (r: Result<Json, JsonError>)
    ensures !j.JObject? ==> r == Failure(WrongKind("Object", KindName(j)))
    ensures j.JObject? && !HasMember(j, name) ==> r == Failure(PropertyMissing(name))
    ensures r.Success? <==> TryGetProperty(j, name).Success? && TryGetProperty(j, name).value.Some?
    ensures r.Success? ==> TryGetProperty(j, name) == Success(Some(r.value))
  {
    var found :- TryGetProperty(j, name);
    if found.None? then Failure(PropertyMissing(name)) else Success(found.value)
  }

  /** `GetString`: the text of a string, null for JSON null, an exception otherwise. */
  function GetString(j: Json): (r: Result<Option<string>, JsonError>)
    ensures r.Success? <==> j.JString? || j.JNull?
    ensures j.JString? ==> r == Success(Some(j.s))
    ensures j.JNull? ==> r == Success(None)
    ensures r.Failure? ==> r.error == WrongKind("String", KindName(j))
  {
    match j
    case JString(s) => Success(Some(s))
    case JNull => Success(None)
    case _ => Failure(WrongKind("String", KindName(j)))
  }

  /** `EnumerateArray`: the elements of an array in order, an exception otherwise. */
  function EnumerateArray(j: Json): (r: Result<seq<Json>, JsonError>)
    ensures r.Success? <==> j.JArray?
    ensures r.Success? ==> r.value == j.items
    ensures r.Failure? ==> r.error == WrongKind("Array", KindName(j))
  {
    match j
    case JArray(items) => Success(items)
    case _ => Failure(WrongKind("Array", KindName(j)))
  }

  /** A definition followed by no other member of that name is the one found, whatever
      came before it and whatever follows it. */
  lemma LastDefinitionWins(before: seq<(string, Json)>, name: string, w: Json, after: seq<(string, Json)>)
    requires forall k :: 0 <= k < |after| ==> after[k].0 != name
    ensures TryGetProperty(JObject(before + [(name, w)] + after), name) == Success(Some(w))
  {
    var m := before + [(name, w)] + after;
    var i := |before|;
    assert m[i] == (name, w);
    forall k | i < k < |m| ensures m[k].0 != name {
      assert m[k] == after[k - i - 1];
    }
    assert LastIndexOf(m, name) == Some(i);
  }
}
