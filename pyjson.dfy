/** A JSON document as Python's `json.loads` hands it to the handlers, and
    the few Python operations the handlers apply to it: `key in value`,
    `value.get(key, default)`, `value[key]` and `len(value)`. An operation
    Python would answer with an exception yields `Raised`. */
module PyJson {
  import opened PyText

  datatype Option<T> = None | Some(value: T) {
    function GetOr(default: T): T {
      if Some? then value else default
    }
  }

  /** The outcome of evaluating a Python expression: a value, or an
      exception (which kind does not matter to the handlers, whose
      `except Exception` treats them all alike). */
  datatype PyResult<T> = Ok(value: T) | Raised {
    predicate IsFailure() {
      Raised?
    }

    function PropagateFailure<U>(): PyResult<U>
      requires Raised?
    {
      Raised
    }

    function Extract(): T
      requires Ok?
    {
      value
    }
  }

  /** A decoded JSON value. An object keeps its members in document order,
      as a Python `dict` keeps insertion order. Numbers are kept as their
      literal text: no handler looks at a number's value. */
  datatype Json =
    | JNull
    | JBool(b: bool)
    | JNumber(literal: string)
    | JString(s: string)
    | JArray(items: seq<Json>)
    | JObject(fields: seq<(string, Json)>)

  predicate HasKey(fields: seq<(string, Json)>, key: string) {
    exists i | 0 <= i < |fields| :: fields[i].0 == key
  }

  /** No two members of an object share a key, as in every `dict` that
      `json.loads` builds. */
  predicate UniqueKeys(fields: seq<(string, Json)>) {
    forall i, j | 0 <= i < j < |fields| :: fields[i].0 != fields[j].0
  }

  /** The value stored under `key`: the first member with that key. */
  function Lookup(fields: seq<(string, Json)>, key: string): (r: Option<Json>)
    ensures r.None? <==> !HasKey(fields, key)
    ensures r.Some? ==>
      exists i | 0 <= i < |fields| ::
        fields[i] == (key, r.value) && forall j | 0 <= j < i :: fields[j].0 != key
  {
    if fields == [] then None
    else if fields[0].0 == key then Some(fields[0].1)
    else
      Lookup(fields[1..], key)
  }

  /** In an object with distinct keys, looking a member's key up gives
      that member's value. */
  lemma LookupUnique(fields: seq<(string, Json)>, i: nat)
    requires UniqueKeys(fields)
    requires i < |fields|
    ensures Lookup(fields, fields[i].0) == Some(fields[i].1)
  {
    var r := Lookup(fields, fields[i].0);
    var k :| 0 <= k < |fields| && fields[k] == (fields[i].0, r.value) &&
             forall j | 0 <= j < k :: fields[j].0 != fields[i].0;
    assert k == i;
  }

  /** Python's `needle in container` for a string `needle`: a key test on a
      `dict`, an element test on a `list`, a substring test on a `str`; any
      other operand raises `TypeError`. */
  function PyIn(needle: string, container: Json): (r: PyResult<bool>)
    ensures r.Raised? <==> !(container.JObject? || container.JArray? || container.JString?)
    ensures container.JObject? ==> r == Ok(HasKey(container.fields, needle))
    ensures container.JArray? ==> r == Ok(JString(needle) in container.items)
    ensures container.JString? ==> r == Ok(Contains(container.s, needle))
  {
    match container
    case JObject(fields) => Ok(Lookup(fields, needle).Some?)
    case JArray(items) => Ok(JString(needle) in items)
    case JString(s) => Ok(Contains(s, needle))
    case _ => Raised
  }

  /** Python's `container.get(key, default)`: only a `dict` has `get`, so any
      other operand raises `AttributeError`. */
  function PyGet(container: Json, key: string, default: Json): (r: PyResult<Json>)
    ensures r.Raised? <==> !container.JObject?
    ensures container.JObject? && !HasKey(container.fields, key) ==> r == Ok(default)
    ensures container.JObject? && HasKey(container.fields, key) ==>
      r == Ok(Lookup(container.fields, key).value)
  {
    match container
    case JObject(fields) => Ok(Lookup(fields, key).GetOr(default))
    case _ => Raised
  }

  /** Python's `container[key]` for a string `key`: a missing key raises
      `KeyError`, a `list` or `str` operand raises `TypeError`. */
  function PySubscript(container: Json, key: string): (r: PyResult<Json>)
    ensures r.Ok? <==> container.JObject? && HasKey(container.fields, key)
    ensures r.Ok? ==> Lookup(container.fields, key) == Some(r.value)
  {
    match container
    case JObject(fields) =>
      (match Lookup(fields, key)
       case Some(v) => Ok(v)
       case None => Raised)
    case _ => Raised
  }

  /** Python's `len(value)`: code points of a `str`, elements of a `list`,
      keys of a `dict`; `len` of a number, a boolean or `None` raises. */
  function PyLen(value: Json): (r: PyResult<nat>)
    ensures value.JArray? ==> r == Ok(|value.items|)
    ensures value.JString? ==> r == Ok(|value.s|)
    ensures value.JObject? ==> r == Ok(|value.fields|)
    ensures r.Raised? <==> !(value.JObject? || value.JArray? || value.JString?)
  {
    match value
    case JString(s) => Ok(|s|)
    case JArray(items) => Ok(|items|)
    case JObject(fields) => Ok(|fields|)
    case _ => Raised
  }
}
