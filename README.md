# CloudFormation hook handlers, modelled in Dafny

The repository holds two AWS Lambda functions. Each one serves as a CloudFormation hook.
A hook receives an invocation event, downloads the stack's template payload from the
event's `requestData.payload` URL, and answers with a response record:

- `hookStatus` is `SUCCESS` or `FAILED`;
- `message` carries the verdict's text;
- `clientRequestToken` is copied from the event;
- `errorCode` is `NonCompliant` or `InternalFailure`, and is present only on failure.

- **EventBus hook** (`eventbus-with-rbacp.py`, module `EventBusHook`). It reads the
  template as text, line by line. From the first line whose stripped form starts with
  `Resources:` on, it collects the value of every `Type:` line. It then refuses a stack
  that declares an `AWS::Events::EventBus` without an `AWS::Events::EventBusPolicy`.
- **Multi-AZ Lambda hook** (`lambda-multiAz.py`, module `LambdaMultiAzHook`). It walks
  the decoded template's `Resources` mapping in order and collects the `Type` values.
  When one of them is `AWS::Lambda::Function`, it evaluates the first Lambda function
  only: a function with a `VpcConfig` must list at least two `SubnetIds`.

Three shared modules supply the Python semantics the handlers rely on:

- `PyText`:
  - `str.strip()` with Python's full whitespace set;
  - `str.splitlines()` with all of its line boundaries, `\r\n` counting as one;
  - `split(":", 1)[1]`;
  - substring `in`.
- `PyJson`:
  - a JSON value whose objects keep their members in document order, as a `dict` does;
  - `in`, `.get`, `[]` and `len` on such values, where an operation Python answers with
    an exception yields `Raised`.
- `Hook`:
  - the response record and the event accessors;
  - the abstract payload fetch.

Each handler is a method over the event and a `fetch` function. `fetch` maps the payload
URL to either a decoded JSON document or a failure. Each handler mirrors the source:

- it builds the default response and updates it field by field;
- the `try` body sets a `failed` flag wherever Python would raise;
- the `except` branch then turns that flag into the internal-failure response;
- reads of the event happen before the `try` in the source, so an event that is not a
  `dict` (or whose `requestData` is not one) ends in `Uncaught`.

The scan loop of the EventBus hook is proved against two definitions. The first is
`Scan`, a fold with the loop's own state. The second is a declarative reference,
`TypesInResources`: the `Type:` entries of the lines after the first header line
(`ScanIsReference` proves the two agree). The properties of the scan are proved about the
reference.

The EventBus scanner reads the template as YAML text. Its docstring admits YAML or
JSON, but a JSON template whose line breaks all fall between tokens has no line whose
stripped form starts with `Resources:`. Such a template reports no types and is always
accepted (`JsonLinesReportNothing`); the model keeps this behaviour.

`InitialResponse`, `InternalFailureResponse` and `NonCompliantResponse` are the
vocabulary the handlers' contracts are written in: the response literal and the two
blocks that update it on failure (eventbus-with-rbacp.py:64-68, 95-97 and 101-103, and
the same blocks in lambda-multiAz.py).

## Model

| member | source | states |
|---|---|---|
| PyText.Strip | eventbus-with-rbacp.py:22 | the stripped line has no whitespace at either end and is no longer than the line |
| PyText.StripIsSlice | eventbus-with-rbacp.py:22 | `strip()` removes whitespace and nothing else: its result is a contiguous slice of the line with only whitespace on either side |
| PyText.StripIgnoresIndent | eventbus-with-rbacp.py:22 | leading whitespace (indentation) never changes the stripped line |
| PyText.SplitLines | eventbus-with-rbacp.py:18 | `splitlines()` gives no more lines than characters, no line holds a line boundary, and a non-empty text without boundaries is one line |
| PyText.LineEndAfter | eventbus-with-rbacp.py:18 | a line runs up to the first line boundary: the text before a boundary that holds none ends where the boundary starts |
| PyText.SplitLinesAtBreak | eventbus-with-rbacp.py:18 | the lines of `a + c + b`, for a boundary character `c` that is not the `\r` of a `\r\n` pair and a piece `a` without boundaries, are `a` followed by the lines of `b` |
| PyText.SplitLinesAtCrLf | eventbus-with-rbacp.py:18 | a `\r\n` pair ends one line as a whole: the lines of `a + "\r\n" + b` are `a` followed by the lines of `b`, with no empty line between the two characters |
| PyText.AfterFirstColon | eventbus-with-rbacp.py:33 | `split(":", 1)[1]` is the suffix after the first colon: the character before it is `:` and no earlier character is |
| PyText.AfterTypePrefix | eventbus-with-rbacp.py:31-33 | on a line starting with `Type:` the first colon ends that prefix, so the split gives everything after `Type:` |
| PyText.ContainsIffOccurs | lambda-multiAz.py:18 | `needle in haystack` on two strings holds exactly when `needle` occurs in `haystack` at some position |
| PyJson.Lookup | lambda-multiAz.py:18-19 | a key is found exactly when some member has it, and then the value is that of the first such member |
| PyJson.LookupUnique | lambda-multiAz.py:19 | in an object with distinct keys (as `json.loads` builds), looking up a member's key gives that member's value |
| PyJson.PyIn | eventbus-with-rbacp.py:78 | `x in v` raises exactly when `v` is not a dict, list or str; on a dict it tests the keys, on a list the elements, on a str the substrings |
| PyJson.PyGet | lambda-multiAz.py:16 | `.get` raises exactly when the receiver is not a dict; a present key gives its stored value (the first member with that key), a missing key the default |
| PyJson.PySubscript | lambda-multiAz.py:19 | `v[key]` succeeds exactly when `v` is a dict holding `key`, and then gives the value stored under it |
| PyJson.PyLen | lambda-multiAz.py:41 | `len` counts the code points of a str, the elements of a list and the keys of a dict, and raises exactly on any other value |
| Hook.EventReadable | eventbus-with-rbacp.py:59-67 | the event reads before the `try` succeed exactly when `event.get("requestData", {})`, the `.get` on its result and `event.get("clientRequestToken")` all succeed |
| Hook.RequestToken | lambda-multiAz.py:55 | on a readable event the token is what `event.get("clientRequestToken")` yields, `null` when the key is absent |
| Hook.PayloadUrl | lambda-multiAz.py:49 | on a readable event the URL is what `event.get("requestData", {}).get("payload")` yields, `null` when there is no `requestData` |
| EventBusHook.HeaderIndex | eventbus-with-rbacp.py:25-27 | a reported header position holds a line whose stripped form starts with `Resources:` |
| EventBusHook.HeaderIndexIsFirst | eventbus-with-rbacp.py:25-27 | the header position is the first such line, and none is reported only when no line is a header |
| EventBusHook.LineEntry | eventbus-with-rbacp.py:31-34 | a line contributes at most one type |
| EventBusHook.TypeEntries | eventbus-with-rbacp.py:31-34 | the `Type:` lines give no more entries than there are lines |
| EventBusHook.TypesInResources | eventbus-with-rbacp.py:21-34 | the reported types are no more than the lines |
| EventBusHook.ScanLine | eventbus-with-rbacp.py:22-34 | one loop step sets the flag iff the line is a header and never clears it; it appends the line's type iff the flag was set and the line is a `Type:` line, and otherwise keeps the list |
| EventBusHook.Scan | eventbus-with-rbacp.py:21-34 | after any lines the flag is set iff one of them is a header, and the list has at most one type per line |
| EventBusHook.ExtractResourceTypes | eventbus-with-rbacp.py:4-36 | `extract_resource_types` returns exactly the `Type:` entries after the first `Resources:` line of `template.splitlines()`, at most one per line |
| EventBusHook.ScanLines | eventbus-with-rbacp.py:21-34 | the loop with its `inside_resource` flag reports exactly the reference list `TypesInResources` |
| EventBusHook.ScanIsReference | eventbus-with-rbacp.py:21-34 | after any prefix of lines the loop's flag is set iff a header has been seen, and its list equals the reference |
| EventBusHook.HeaderIsNoTypeLine | eventbus-with-rbacp.py:25-31 | a header line is never also a `Type:` line, so the `continue` loses no entry |
| EventBusHook.TypeEntriesAppend | eventbus-with-rbacp.py:21-34 | the entries of concatenated blocks of lines are the concatenated entries |
| EventBusHook.HeaderIndexAppend | eventbus-with-rbacp.py:25-27 | appending lines keeps an earlier header, and otherwise finds the first header of the appended lines |
| EventBusHook.StickyHeader | eventbus-with-rbacp.py:25-30 | the flag is never reset: after a header, further lines append their entries after those already reported |
| EventBusHook.ScanStep | eventbus-with-rbacp.py:25-34 | one more line sets the flag iff it is a header, and adds its type iff the flag was already set and it is a `Type:` line |
| EventBusHook.TypesIgnoreLinesBeforeHeader | eventbus-with-rbacp.py:25-30 | no `Type:` line before the first header is reported: the result is the entries of the lines after that header alone |
| EventBusHook.NoHeaderNoTypes | eventbus-with-rbacp.py:25-30 | without a header line nothing is reported |
| EventBusHook.JsonLinesReportNothing | eventbus-with-rbacp.py:9 | a template written as JSON, whose stripped lines are empty or open with a quote, brace or bracket, reports no types at all, whatever resources it declares |
| EventBusHook.TypeEntriesTrimmed | eventbus-with-rbacp.py:33 | every entry has no whitespace at either end |
| EventBusHook.TypesInResourcesTrimmed | eventbus-with-rbacp.py:33 | every reported type has no whitespace at either end |
| EventBusHook.TypeEntryAt | eventbus-with-rbacp.py:31-34 | each `Type:` line yields its own entry, placed right after the entries of the lines before it |
| EventBusHook.SameStrippedLines | eventbus-with-rbacp.py:22 | lines that strip alike have the same header position and the same entries |
| EventBusHook.SameStrippedTails | eventbus-with-rbacp.py:22 | the same holds for the lines from any position on |
| EventBusHook.SameStrippedResources | eventbus-with-rbacp.py:22 | lines that strip alike report the same types |
| EventBusHook.IndentationIrrelevant | eventbus-with-rbacp.py:22-25 | indenting every line by any whitespace leaves the reported types unchanged |
| EventBusHook.ValidateTypeDependencies | eventbus-with-rbacp.py:39-54 | succeeds iff no pair has its required type present and its dependent absent; on success the message is "All dependencies are satisfied."; on failure it names the first violated pair as "{required} found without an associated {dependent}."; no pairs, or no required type present, succeed |
| EventBusHook.EventBusRule | eventbus-with-rbacp.py:88-93 | with the handler's pairs the verdict fails exactly when an EventBus is declared without an EventBusPolicy, with that pair's message |
| EventBusHook.LambdaHandler | eventbus-with-rbacp.py:57-105 | an unreadable event escapes; otherwise the token is copied unchanged, and a failed fetch, a payload for which `in`, `.get` or `splitlines` raises, or a non-string template gives FAILED/InternalFailure; a payload without `template` stays SUCCESS with the default message; a template string whose scan lists an EventBus without an EventBusPolicy gives FAILED/NonCompliant with the rule's message, and any other gives the default response |
| LambdaMultiAzHook.TypeValues | lambda-multiAz.py:17-19 | no more `Type` values than resources |
| LambdaMultiAzHook.TypeCheckRaises | lambda-multiAz.py:18-19 | a resource makes the walk raise exactly when `"Type" in resource` raises, or holds and `resource["Type"]` then raises |
| LambdaMultiAzHook.TypeOfIsSubscript | lambda-multiAz.py:18-19 | where the walk does not raise, a resource contributes a value iff `"Type" in resource` holds, and that value is `resource["Type"]` |
| LambdaMultiAzHook.ResourceEntries | lambda-multiAz.py:16-17 | the walked entries are the members of the template's `Resources` dict in document order; a dict template without `Resources` has none; a non-dict template, or a `Resources` that is not a dict, raises |
| LambdaMultiAzHook.ResourceTypes | lambda-multiAz.py:15-20 | a non-dict template raises; without `Resources` the list is empty; with a dict `Resources` it raises iff some member fails the `Type` test and otherwise lists the members' `Type` values in order; any other `Resources` raises |
| LambdaMultiAzHook.ExtractResourceTypes | lambda-multiAz.py:5-20 | the walk returns exactly `ResourceTypes(template)`: the `Type` values of the members of the template's `Resources` in mapping order, skipping those without one, raising exactly where Python does; at most one value per resource |
| LambdaMultiAzHook.CollectTypes | lambda-multiAz.py:17-19 | the loop over `resources.values()` raises iff some resource fails the `"Type" in` test or its subscript, and otherwise returns the `Type` values in order |
| LambdaMultiAzHook.TypeValuesAppend | lambda-multiAz.py:17-19 | the values of concatenated resources are the concatenated values |
| LambdaMultiAzHook.TypeValueAt | lambda-multiAz.py:17-19 | each resource with a `Type` contributes its value, placed right after the values of the resources before it |
| LambdaMultiAzHook.TypeValuesFromEntries | lambda-multiAz.py:17-19 | every reported value is the `Type` of some resource |
| LambdaMultiAzHook.EvaluateCompliance | lambda-multiAz.py:23-44 | no `Properties` or no `VpcConfig` gives (True, "Nothing to evaluate"); with a dict `VpcConfig` the result is (True, "Lambda function is compliant") when `len(SubnetIds) >= 2` and (False, "Lambda function is non-compliant: SubnetIds must have at least 2 elements") otherwise, an absent `SubnetIds` counting as none; a non-dict resource or `VpcConfig`, a `str`/`list` `Properties` containing `VpcConfig`, and a `SubnetIds` without a length, raise |
| LambdaMultiAzHook.FirstLambda | lambda-multiAz.py:73-74 | the position found is a Lambda function and no earlier resource is one; none is found only when there is none |
| LambdaMultiAzHook.IsLambda | lambda-multiAz.py:74 | a resource is the one looked for exactly when `resource.get("Type")` succeeds and equals `"AWS::Lambda::Function"` |
| LambdaMultiAzHook.RaisesBefore | lambda-multiAz.py:73-74 | the loop raises before position `i` exactly when `resource.get("Type")` raises on some earlier resource |
| LambdaMultiAzHook.LambdaListedIffPresent | lambda-multiAz.py:70-74 | `AWS::Lambda::Function` is among the extracted types iff some resource is a Lambda function, so the loop has one to find |
| LambdaMultiAzHook.FirstLambdaStable | lambda-multiAz.py:73-83 | resources after the first Lambda function never change which one is evaluated |
| LambdaMultiAzHook.LambdaResponse | lambda-multiAz.py:76-88 | a compliant evaluation keeps SUCCESS with its message, a non-compliant one gives FAILED/NonCompliant with its message, a raising one the internal-failure response; the token is kept |
| LambdaMultiAzHook.EvaluateFirstLambda | lambda-multiAz.py:73-83 | the loop raises iff a non-dict resource precedes the first Lambda function or its evaluation raises; otherwise it applies that evaluation's verdict to the response, or leaves the response alone when there is no Lambda function |
| LambdaMultiAzHook.LambdaHandler | lambda-multiAz.py:47-90 | an unreadable event escapes; otherwise the token is copied unchanged; a failed fetch or a raising walk gives FAILED/InternalFailure; no Lambda function leaves the default response; otherwise the first Lambda function among the members of the template's `Resources` decides, as `LambdaResponse` states, unless a non-dict resource precedes it |

## Left out

- The HTTP request (`urllib3.PoolManager`, `http.request`), UTF-8 decoding and `json.loads` become the `fetch` parameter: the model only distinguishes a decoded document from a failure.
- Logging (`print`), the unused `context` argument and the unused `target_type` are left out. The `.get` calls that read `target_type` are still modelled, as part of the event reads.
- Which exception is raised is not modelled: the handlers' `except Exception` treats them all alike, so one `Raised` outcome stands for every kind.
- JSON objects with duplicate keys: `json.loads` keeps the last value of a repeated key, while `Lookup` takes the first member. The walk over `Resources` also visits every member. The model agrees with Python on objects whose keys are distinct (`UniqueKeys`), which is every object `json.loads` produces from a template without repeated keys. `LookupUnique` states that agreement; the handlers' contracts do not assume distinct keys.
- JSON numbers are kept as their literal text. No handler reads a number's value; equality between a number and a string, which is all the handlers do with one, is false in both.
- Strings are sequences of Unicode scalar values; a Python `str` holding a lone surrogate (which `json.loads` can produce from a `\ud800` escape) has no counterpart.
