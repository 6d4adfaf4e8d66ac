/** The multi-AZ Lambda hook (lambda-multiAz.py): the decoded template's
    `Resources` mapping is walked in order, and the first Lambda function
    found is refused unless its VPC configuration names at least two
    subnets. */
module LambdaMultiAzHook {
  import opened PyText
  import opened PyJson
  import opened Hook

  const LambdaType := "AWS::Lambda::Function"

  const NothingToEvaluate := "Nothing to evaluate"
  const LambdaCompliantMessage := "Lambda function is compliant"
  const LambdaNonCompliantMessage := "Lambda function is non-compliant: SubnetIds must have at least 2 elements"

  // ---------------------------------------------------------------------
  // extract_resource_types: what it reports

  /** `"Type" in resource` and then `resource["Type"]` raise: a `list`
      holding the string `"Type"` or a `str` containing it passes the test
      and cannot be subscripted by a string; a number, boolean or `None`
      fails the test itself. A `dict` never raises here. */
  predicate TypeCheckRaises(resource: Json)
    ensures TypeCheckRaises(resource) <==>
      match PyIn("Type", resource)
      case Raised => true
      case Ok(hasType) => hasType && PySubscript(resource, "Type").Raised?
  {
    match resource
    case JObject(_) => false
    case JArray(items) => JString("Type") in items
    case JString(s) => Contains(s, "Type")
    case _ => true
  }

  /** The `Type` value an entry contributes: only a `dict` with a `Type`
      key contributes one. */
  function TypeOf(resource: Json): (t: Option<Json>) {
    if resource.JObject? then Lookup(resource.fields, "Type") else None
  }

  /** Where the walk does not raise, an entry contributes a value exactly
      when `"Type" in resource` holds, and that value is `resource["Type"]`. */
  lemma TypeOfIsSubscript(resource: Json)
    requires !TypeCheckRaises(resource)
    ensures TypeOf(resource).Some? <==> PyIn("Type", resource) == Ok(true)
    ensures TypeOf(resource).Some? ==> PySubscript(resource, "Type") == Ok(TypeOf(resource).value)
  {
  }

  /** The `Type` values of the entries, in mapping order, skipping entries
      that have none. */
  function TypeValues(entries: seq<(string, Json)>): (types: seq<Json>)
    ensures |types| <= |entries|
  {
    if entries == [] then []
    else
      (match TypeOf(entries[0].1) case Some(t) => [t] case None => [])
      + TypeValues(entries[1..])
  }

  /** The members of `template.get("Resources", {})`: `.get` needs a `dict`
      template, and `.values()` a `dict` of resources. */
  function ResourceEntries(template: Json): (r: PyResult<seq<(string, Json)>>)
    ensures template.JObject? && !HasKey(template.fields, "Resources") ==> r == Ok([])
    ensures r.Ok? ==> template.JObject?
    ensures template.JObject? ==>
      match Lookup(template.fields, "Resources")
      case None => r == Ok([])
      case Some(JObject(fields)) => r == Ok(fields)
      case Some(_) => r.Raised?
  {
    var resources :- PyGet(template, "Resources", JObject([]));
    if resources.JObject? then Ok(resources.fields) else Raised
  }

  /** Some entry makes the walk raise. */
  predicate SomeEntryRaises(entries: seq<(string, Json)>) {
    exists i | 0 <= i < |entries| :: TypeCheckRaises(entries[i].1)
  }

  /** What `extract_resource_types` returns, or `Raised` when it raises. */
  function ResourceTypes(template: Json): (r: PyResult<seq<Json>>)
    ensures template.JObject? && !HasKey(template.fields, "Resources") ==> r == Ok([])
    ensures !template.JObject? ==> r.Raised?
    ensures template.JObject? ==>
      match Lookup(template.fields, "Resources")
      case None => r == Ok([])
      case Some(JObject(fields)) =>
        r == if SomeEntryRaises(fields) then Raised else Ok(TypeValues(fields))
      case Some(_) => r.Raised?
  {
    var entries :- ResourceEntries(template);
    if SomeEntryRaises(entries) then Raised else Ok(TypeValues(entries))
  }

  // ---------------------------------------------------------------------
  // extract_resource_types: the walk itself

  /** `extract_resource_types`: the `Type` values of the template's
      resources, or `Raised` where Python raises. */
  method ExtractResourceTypes(template: Json) returns (r: PyResult<seq<Json>>)
    ensures r == ResourceTypes(template)
    ensures r.Ok? ==> |r.value| <= |ResourceEntries(template).value|
  {
    var resources := PyGet(template, "Resources", JObject([]));
    if resources.Raised? || !resources.value.JObject? {
      return Raised;
    }
    r := CollectTypes(resources.value.fields);
  }

  /** The loop over `resources.values()`, appending each `Type` found. */
  method CollectTypes(entries: seq<(string, Json)>) returns (r: PyResult<seq<Json>>)
    ensures r == if SomeEntryRaises(entries) then Raised else Ok(TypeValues(entries))
  {
    var types: seq<Json> := [];
    for k := 0 to |entries|
      invariant forall j | 0 <= j < k :: !TypeCheckRaises(entries[j].1)
      invariant types == TypeValues(entries[..k])
    {
      var resource := entries[k].1;
      var hasType := PyIn("Type", resource);
      if hasType.Raised? {
        assert TypeCheckRaises(entries[k].1);
        return Raised;
      }
      TypeValuesAppend(entries[..k], [entries[k]]);
      assert entries[..k + 1] == entries[..k] + [entries[k]];
      if hasType.value {
        var resourceType := PySubscript(resource, "Type");
        if resourceType.Raised? {
          assert TypeCheckRaises(entries[k].1);
          return Raised;
        }
        types := types + [resourceType.value];
      }
    }
    assert entries[..|entries|] == entries;
    return Ok(types);
  }

  // ---------------------------------------------------------------------
  // Properties of the walk

  /** Walking concatenated entries concatenates their `Type` values. */
  lemma {:induction false} TypeValuesAppend(a: seq<(string, Json)>, b: seq<(string, Json)>)
    ensures TypeValues(a + b) == TypeValues(a) + TypeValues(b)
  {
    if a == [] {
      assert a + b == b;
    } else {
      assert (a + b)[0] == a[0];
      assert (a + b)[1..] == a[1..] + b;
      TypeValuesAppend(a[1..], b);
    }
  }

  /** Every entry with a `Type` contributes exactly its value, at the
      position after the values of the entries before it. */
  lemma TypeValueAt(entries: seq<(string, Json)>, i: nat)
    requires i < |entries| && TypeOf(entries[i].1).Some?
    ensures |TypeValues(entries[..i])| < |TypeValues(entries)|
    ensures TypeValues(entries)[|TypeValues(entries[..i])|] == TypeOf(entries[i].1).value
  {
    assert entries == entries[..i] + [entries[i]] + entries[i + 1..];
    TypeValuesAppend(entries[..i] + [entries[i]], entries[i + 1..]);
    TypeValuesAppend(entries[..i], [entries[i]]);
  }

  /** Every reported value is the `Type` of some entry. */
  lemma {:induction false} TypeValuesFromEntries(entries: seq<(string, Json)>, t: Json)
    requires t in TypeValues(entries)
    ensures exists i | 0 <= i < |entries| :: TypeOf(entries[i].1) == Some(t)
  {
    var head := match TypeOf(entries[0].1) case Some(v) => [v] case None => [];
    assert TypeValues(entries) == head + TypeValues(entries[1..]);
    if t !in head {
      TypeValuesFromEntries(entries[1..], t);
      var i :| 0 <= i < |entries| - 1 && TypeOf(entries[1..][i].1) == Some(t);
      assert entries[1..][i] == entries[i + 1];
    }
  }

  // ---------------------------------------------------------------------
  // evaluate_compliance

  /** `evaluate_compliance`: a resource without VPC configuration has
      nothing to evaluate; one with it complies exactly when `SubnetIds`
      has at least two elements, a missing `SubnetIds` counting as none.
      Each `.get` on a non-`dict`, and `len` of a value without one, raises. */
  function EvaluateCompliance(resource: Json): (r: PyResult<(bool, string)>)
    ensures r.Ok? ==> (r.value.0 <==> r.value.1 != LambdaNonCompliantMessage)
    ensures match resource
      case JObject(fields) =>
        (match Lookup(fields, "Properties")
         case None => r == Ok((true, NothingToEvaluate))
         case Some(JObject(properties)) =>
           (match Lookup(properties, "VpcConfig")
            case None => r == Ok((true, NothingToEvaluate))
            case Some(JObject(vpcConfig)) =>
              (match Lookup(vpcConfig, "SubnetIds")
               case None => r == Ok((false, LambdaNonCompliantMessage))
               case Some(JArray(subnetIds)) =>
                 r == Ok(if |subnetIds| >= 2 then (true, LambdaCompliantMessage)
                         else (false, LambdaNonCompliantMessage))
               case Some(JString(subnetIds)) =>
                 r == Ok(if |subnetIds| >= 2 then (true, LambdaCompliantMessage)
                         else (false, LambdaNonCompliantMessage))
               case Some(JObject(subnetIds)) =>
                 r == Ok(if |subnetIds| >= 2 then (true, LambdaCompliantMessage)
                         else (false, LambdaNonCompliantMessage))
               case Some(_) => r.Raised?)
            case Some(_) => r.Raised?)
         case Some(JArray(items)) =>
           r == if JString("VpcConfig") in items then Raised else Ok((true, NothingToEvaluate))
         case Some(JString(text)) =>
           r == if Contains(text, "VpcConfig") then Raised else Ok((true, NothingToEvaluate))
         case Some(_) => r.Raised?)
      case _ => r.Raised?
  {
    var properties :- PyGet(resource, "Properties", JObject([]));
    var hasVpcConfig :- PyIn("VpcConfig", properties);
    if !hasVpcConfig then Ok((true, NothingToEvaluate))
    else
      var vpcConfig :- PyGet(properties, "VpcConfig", JObject([]));
      var subnetIds :- PyGet(vpcConfig, "SubnetIds", JArray([]));
      var count :- PyLen(subnetIds);
      if count >= 2 then Ok((true, LambdaCompliantMessage))
      else Ok((false, LambdaNonCompliantMessage))
  }

  // ---------------------------------------------------------------------
  // lambda_handler: choosing the Lambda function to evaluate

  /** `resource.get("Type") == "AWS::Lambda::Function"` holds. */
  predicate IsLambda(resource: Json)
    ensures IsLambda(resource) <==> PyGet(resource, "Type", JNull) == Ok(JString(LambdaType))
  {
    resource.JObject? && Lookup(resource.fields, "Type") == Some(JString(LambdaType))
  }

  /** The position of the first Lambda function in mapping order. */
  function FirstLambda(entries: seq<(string, Json)>): (r: Option<nat>)
    ensures r.Some? ==> r.value < |entries| && IsLambda(entries[r.value].1)
    ensures r.Some? ==> forall j | 0 <= j < r.value :: !IsLambda(entries[j].1)
    ensures r.None? ==> forall j | 0 <= j < |entries| :: !IsLambda(entries[j].1)
  {
    if entries == [] then None
    else if IsLambda(entries[0].1) then Some(0)
    else
      match FirstLambda(entries[1..])
      case None => None
      case Some(i) => Some(i + 1)
  }

  /** The handler looks for a Lambda function exactly when the walk listed
      one: some entry is a Lambda function iff its type is among the
      reported values. */
  lemma {:induction false} LambdaListedIffPresent(entries: seq<(string, Json)>)
    ensures JString(LambdaType) in TypeValues(entries) <==> FirstLambda(entries).Some?
  {
    if entries != [] {
      LambdaListedIffPresent(entries[1..]);
      var head := match TypeOf(entries[0].1) case Some(v) => [v] case None => [];
      assert TypeValues(entries) == head + TypeValues(entries[1..]);
      assert JString(LambdaType) in head <==> IsLambda(entries[0].1);
    }
  }

  /** Only the first Lambda function counts: resources after it never
      change which one is evaluated. */
  lemma {:induction false} FirstLambdaStable(a: seq<(string, Json)>, b: seq<(string, Json)>)
    requires FirstLambda(a).Some?
    ensures FirstLambda(a + b) == FirstLambda(a)
  {
    assert (a + b)[0] == a[0];
    if !IsLambda(a[0].1) {
      assert (a + b)[1..] == a[1..] + b;
      FirstLambdaStable(a[1..], b);
    }
  }

  /** Some resource before position `i` is not a `dict`, so
      `resource.get("Type")` raises before the loop gets past it. */
  predicate RaisesBefore(entries: seq<(string, Json)>, i: nat)
    requires i <= |entries|
    ensures RaisesBefore(entries, i) <==>
      exists j | 0 <= j < i :: PyGet(entries[j].1, "Type", JNull).Raised?
  {
    exists j | 0 <= j < i :: !entries[j].1.JObject?
  }

  /** The response once the first Lambda function's evaluation is known. */
  function LambdaResponse(token: Json, evaluation: PyResult<(bool, string)>): (response: HookResponse)
    ensures response.clientRequestToken == token
    ensures evaluation.Raised? ==> response == InternalFailureResponse(token)
    ensures evaluation.Ok? && evaluation.value.0 ==>
      response == InitialResponse(token).(message := evaluation.value.1)
    ensures evaluation.Ok? && !evaluation.value.0 ==>
      response == NonCompliantResponse(token, evaluation.value.1)
  {
    match evaluation
    case Raised => InternalFailureResponse(token)
    case Ok((true, message)) => HookResponse(Success, message, token, None)
    case Ok((false, message)) => HookResponse(Failed, message, token, Some(NonCompliant))
  }

  // ---------------------------------------------------------------------
  // lambda_handler

  /** The loop over `resources.items()`: it evaluates the first Lambda
      function and breaks. `failed` tells that an exception escaped it,
      from `resource.get` on a non-`dict` resource met first or from
      `evaluate_compliance`. Otherwise a compliant function only replaces
      the message, a non-compliant one also fails the response, and
      without a Lambda function the response is left alone. */
  method EvaluateFirstLambda(entries: seq<(string, Json)>, initial: HookResponse)
    returns (response: HookResponse, failed: bool)
    ensures failed ==> response == initial
    ensures FirstLambda(entries).None? ==>
      && (failed <==> RaisesBefore(entries, |entries|))
      && (!failed ==> response == initial)
    ensures FirstLambda(entries).Some? ==>
      var evaluation := EvaluateCompliance(entries[FirstLambda(entries).value].1);
      && (failed <==> RaisesBefore(entries, FirstLambda(entries).value) || evaluation.Raised?)
      && (!failed && evaluation.value.0 ==> response == initial.(message := evaluation.value.1))
      && (!failed && !evaluation.value.0 ==>
            response == initial.(hookStatus := Failed, message := evaluation.value.1,
                                 errorCode := Some(NonCompliant)))
  {
    response := initial;
    failed := false;
    var k := 0;
    while k < |entries|
      invariant k <= |entries|
      invariant FirstLambda(entries).Some? ==> k <= FirstLambda(entries).value
      invariant forall j | 0 <= j < k :: entries[j].1.JObject?
      invariant !failed && response == initial
      decreases |entries| - k
    {
      var resource := entries[k].1;
      var resourceType := PyGet(resource, "Type", JNull);
      if resourceType.Raised? {
        failed := true;
        break;
      }
      if resourceType.value == JString(LambdaType) {
        var evaluation := EvaluateCompliance(resource);
        if evaluation.Raised? {
          failed := true;
        } else {
          var (isCompliant, message) := evaluation.value;
          if !isCompliant {
            response := response.(hookStatus := Failed);
            response := response.(message := message);
            response := response.(errorCode := Some(NonCompliant));
          } else {
            response := response.(message := message);
          }
        }
        break;
      }
      k := k + 1;
    }
  }

  /** The handler: fetches and decodes the template, and when the walk lists
      a Lambda function evaluates the first one in mapping order. */
  method LambdaHandler(event: Json, fetch: Json -> Payload) returns (out: HandlerResult)
    ensures out.Uncaught? <==> !EventReadable(event)
    ensures out.Returned? ==> out.response.clientRequestToken == RequestToken(event)
    ensures EventReadable(event) && fetch(PayloadUrl(event)).FetchFailed? ==>
      out == Returned(InternalFailureResponse(RequestToken(event)))
    ensures EventReadable(event) && fetch(PayloadUrl(event)).Decoded? ==>
      var token := RequestToken(event);
      var template := fetch(PayloadUrl(event)).doc;
      match ResourceTypes(template)
      case Raised => out == Returned(InternalFailureResponse(token))
      case Ok(types) =>
        if JString(LambdaType) !in types then out == Returned(InitialResponse(token))
        else
          var entries := ResourceEntries(template).value;
          var first := FirstLambda(entries);
          && first.Some?
          && out == Returned(
               if RaisesBefore(entries, first.value) then InternalFailureResponse(token)
               else LambdaResponse(token, EvaluateCompliance(entries[first.value].1)))
  {
    if !EventReadable(event) {
      return Uncaught;
    }
    var payload := PayloadUrl(event);
    var response := InitialResponse(RequestToken(event));
    var failed := false;
    var fetched := fetch(payload);
    if fetched.FetchFailed? {
      failed := true;
    } else {
      var template := fetched.doc;
      var resourceTypes := ExtractResourceTypes(template);
      if resourceTypes.Raised? {
        failed := true;
      } else if JString(LambdaType) in resourceTypes.value {
        var resources := PyGet(template, "Resources", JObject([]));
        var entries := resources.value.fields;
        assert entries == ResourceEntries(template).value;
        LambdaListedIffPresent(entries);
        response, failed := EvaluateFirstLambda(entries, response);
      }
    }
    if failed {
      response := response.(hookStatus := Failed);
      response := response.(message := InternalFailureMessage);
      response := response.(errorCode := Some(InternalFailure));
    }
    return Returned(response);
  }
}
