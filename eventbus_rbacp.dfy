/** The EventBus hook (eventbus-with-rbacp.py): a line scanner recovers the
    `Type:` values of a template's `Resources` section from its text, and
    the stack is refused when it declares an EventBus without an
    EventBusPolicy. */
module EventBusHook {
  import opened PyText
  import opened PyJson
  import opened Hook

  const EventBusType := "AWS::Events::EventBus"
  const EventBusPolicyType := "AWS::Events::EventBusPolicy"

  /** The `(required, dependent)` pairs the handler checks. */
  const RequiredPairs: seq<(string, string)> := [(EventBusType, EventBusPolicyType)]

  const AllSatisfiedMessage := "All dependencies are satisfied."

  /** The message of the one rule the handler enforces:
      "AWS::Events::EventBus found without an associated AWS::Events::EventBusPolicy." */
  const EventBusMessage := EventBusType + " found without an associated " + EventBusPolicyType + "."

  // ---------------------------------------------------------------------
  // extract_resource_types: what it reports. The scan looks at a line only
  // through `line.strip()`.

  /** A stripped line that switches the scanner into the resources section. */
  predicate IsHeader(stripped: string) {
    "Resources:" <= stripped
  }

  /** A stripped line that declares a resource type. */
  predicate IsTypeLine(stripped: string) {
    "Type:" <= stripped
  }

  /** The type a `Type:` line declares: the text after the `Type:` prefix,
      stripped. That prefix ends at the line's first colon (AfterTypePrefix),
      so this is the source's `split(":", 1)[1].strip()`. */
  function TypeValue(stripped: string): (t: string)
    requires IsTypeLine(stripped)
  {
    Strip(stripped[5..])
  }

  /** The position of the first header line, if any (HeaderIndexIsFirst). */
  function HeaderIndex(lines: seq<string>): (h: Option<nat>)
    ensures h.Some? ==> h.value < |lines| && IsHeader(Strip(lines[h.value]))
  {
    if lines == [] then None
    else if IsHeader(Strip(lines[0])) then Some(0)
    else
      match HeaderIndex(lines[1..])
      case None => None
      case Some(h) => Some(h + 1)
  }

  /** The entry one line contributes: its type when it is a `Type:` line. */
  function LineEntry(line: string): (entry: seq<string>)
    ensures |entry| <= 1
  {
    var stripped := Strip(line);
    if IsTypeLine(stripped) then [TypeValue(stripped)] else []
  }

  /** One entry per `Type:` line, in document order. */
  function TypeEntries(lines: seq<string>): (types: seq<string>)
    ensures |types| <= |lines|
  {
    if lines == [] then []
    else LineEntry(lines[0]) + TypeEntries(lines[1..])
  }

  /** The entries of the `Type:` lines that follow the first header line;
      nothing when there is no header. */
  function TypesInResources(lines: seq<string>): (types: seq<string>)
    ensures |types| <= |lines|
  {
    match HeaderIndex(lines)
    case None => []
    case Some(h) => TypeEntries(lines[h + 1..])
  }

  // ---------------------------------------------------------------------
  // extract_resource_types: the scan itself

  /** What the scan knows after some lines: whether a header has been seen
      (`inside_resource`) and the types reported so far. */
  datatype ScanState = ScanState(inside: bool, types: seq<string>)

  /** The loop body for one stripped line. */
  function ScanLine(st: ScanState, stripped: string): (next: ScanState)
    ensures next.inside <==> st.inside || IsHeader(stripped)
    ensures IsHeader(stripped) ==> next.types == st.types
    ensures st.inside && IsTypeLine(stripped) ==> next.types == st.types + [TypeValue(stripped)]
    ensures !(st.inside && IsTypeLine(stripped)) ==> next.types == st.types
  {
    if IsHeader(stripped) then
      HeaderIsNoTypeLine(stripped);
      st.(inside := true)
    else if st.inside && IsTypeLine(stripped) then st.(types := st.types + [TypeValue(stripped)])
    else st
  }

  /** The state after the loop has run over `lines`, one at a time. */
  function Scan(lines: seq<string>): (st: ScanState)
    ensures st.inside <==> exists i | 0 <= i < |lines| :: IsHeader(Strip(lines[i]))
    ensures |st.types| <= |lines|
    decreases |lines|
  {
    if lines == [] then ScanState(false, [])
    else
      var n := |lines| - 1;
      assert forall i | 0 <= i < n :: lines[..n][i] == lines[i];
      ScanLine(Scan(lines[..n]), Strip(lines[n]))
  }

  /** `extract_resource_types`: splits the template into lines and scans
      them; it reports exactly `TypesInResources` of those lines. */
  method ExtractResourceTypes(template: string) returns (types: seq<string>)
    ensures types == TypesInResources(SplitLines(template))
    ensures |types| <= |SplitLines(template)|
  {
    var lines := SplitLines(template);
    types := ScanLines(lines);
  }

  /** The loop of `extract_resource_types` over the template's lines, with
      its `inside_resource` flag. */
  method ScanLines(lines: seq<string>) returns (types: seq<string>)
    ensures types == TypesInResources(lines)
  {
    types := [];
    var inside := false;
    for k := 0 to |lines|
      invariant ScanState(inside, types) == Scan(lines[..k])
    {
      assert lines[..k + 1][..k] == lines[..k];
      var strippedLine := Strip(lines[k]);
      if IsHeader(strippedLine) {
        inside := true;
        continue;
      }
      if inside {
        if IsTypeLine(strippedLine) {
          AfterTypePrefix(strippedLine);
          var resourceType := Strip(AfterFirstColon(strippedLine));
          types := types + [resourceType];
        }
      }
    }
    assert lines[..|lines|] == lines;
    ScanIsReference(lines);
  }

  /** The loop's flag and list agree with the declarative description of
      what the scan reports. */
  lemma {:induction false} ScanIsReference(lines: seq<string>)
    ensures Scan(lines).inside <==> HeaderIndex(lines).Some?
    ensures Scan(lines).types == TypesInResources(lines)
    decreases |lines|
  {
    if lines != [] {
      var n := |lines| - 1;
      ScanIsReference(lines[..n]);
      assert lines == lines[..n] + [lines[n]];
      ScanStep(lines[..n], lines[n]);
    }
  }

  // ---------------------------------------------------------------------
  // Properties of the scan

  /** No stripped line is both a header and a `Type:` line. */
  lemma HeaderIsNoTypeLine(stripped: string)
    requires IsHeader(stripped)
    ensures !IsTypeLine(stripped)
  {
    assert stripped[0] == 'R';
  }

  /** Scanning concatenated blocks of lines concatenates their entries. */
  lemma {:induction false} TypeEntriesAppend(a: seq<string>, b: seq<string>)
    ensures TypeEntries(a + b) == TypeEntries(a) + TypeEntries(b)
  {
    if a == [] {
      assert a + b == b;
    } else {
      assert (a + b)[0] == a[0];
      assert (a + b)[1..] == a[1..] + b;
      TypeEntriesAppend(a[1..], b);
      calc {
        TypeEntries(a + b);
        LineEntry(a[0]) + TypeEntries(a[1..] + b);
        LineEntry(a[0]) + (TypeEntries(a[1..]) + TypeEntries(b));
        (LineEntry(a[0]) + TypeEntries(a[1..])) + TypeEntries(b);
      }
    }
  }

  /** `HeaderIndex` finds the first header line, and finds none only when
      there is none. */
  lemma {:induction false} HeaderIndexIsFirst(lines: seq<string>)
    ensures HeaderIndex(lines).Some? ==>
      forall i | 0 <= i < HeaderIndex(lines).value :: !IsHeader(Strip(lines[i]))
    ensures HeaderIndex(lines).None? ==>
      forall i | 0 <= i < |lines| :: !IsHeader(Strip(lines[i]))
  {
    if lines != [] && !IsHeader(Strip(lines[0])) {
      HeaderIndexIsFirst(lines[1..]);
      assert forall i | 1 <= i < |lines| :: lines[i] == lines[1..][i - 1];
    }
  }

  /** Where the first header lies once more lines are appended. */
  lemma {:induction false} HeaderIndexAppend(a: seq<string>, b: seq<string>)
    ensures HeaderIndex(a).Some? ==> HeaderIndex(a + b) == HeaderIndex(a)
    ensures HeaderIndex(a).None? && HeaderIndex(b).Some? ==>
      HeaderIndex(a + b) == Some(|a| + HeaderIndex(b).value)
    ensures HeaderIndex(a).None? && HeaderIndex(b).None? ==> HeaderIndex(a + b).None?
  {
    if a == [] {
      assert a + b == b;
    } else {
      assert (a + b)[0] == a[0];
      if !IsHeader(Strip(a[0])) {
        assert (a + b)[1..] == a[1..] + b;
        HeaderIndexAppend(a[1..], b);
      }
    }
  }

  /** The flag is never reset: once a header has been seen, every further
      line adds its own entries after the ones already reported. */
  lemma StickyHeader(a: seq<string>, b: seq<string>)
    requires HeaderIndex(a).Some?
    ensures TypesInResources(a + b) == TypesInResources(a) + TypeEntries(b)
  {
    HeaderIndexAppend(a, b);
    var h := HeaderIndex(a).value;
    assert (a + b)[h + 1..] == a[h + 1..] + b;
    TypeEntriesAppend(a[h + 1..], b);
  }

  /** One more line: a header line sets the flag, and a `Type:` line adds
      its entry when the flag was already set. */
  lemma ScanStep(a: seq<string>, line: string)
    ensures HeaderIndex(a + [line]).Some? <==> HeaderIndex(a).Some? || IsHeader(Strip(line))
    ensures TypesInResources(a + [line]) ==
      if HeaderIndex(a).Some? && IsTypeLine(Strip(line))
      then TypesInResources(a) + [TypeValue(Strip(line))]
      else TypesInResources(a)
  {
    HeaderIndexAppend(a, [line]);
    assert TypeEntries([line]) == LineEntry(line) + TypeEntries([]);
    if HeaderIndex(a).Some? {
      StickyHeader(a, [line]);
    } else if IsHeader(Strip(line)) {
      assert HeaderIndex([line]) == Some(0);
      assert (a + [line])[|a| + 1..] == [];
    }
  }

  /** No `Type:` line before the first header is ever reported: the scan
      of `pre + [header] + post` is the entries of `post` alone. */
  lemma TypesIgnoreLinesBeforeHeader(pre: seq<string>, header: string, post: seq<string>)
    requires forall i | 0 <= i < |pre| :: !IsHeader(Strip(pre[i]))
    requires IsHeader(Strip(header))
    ensures TypesInResources(pre + [header] + post) == TypeEntries(post)
  {
    assert HeaderIndex(pre).None?;
    HeaderIndexAppend(pre, [header]);
    assert HeaderIndex([header]) == Some(0);
    HeaderIndexAppend(pre + [header], post);
    assert (pre + [header] + post)[|pre| + 1..] == post;
  }

  /** Without a header line the scan reports nothing, whatever `Type:`
      lines there are. */
  lemma NoHeaderNoTypes(lines: seq<string>)
    requires forall i | 0 <= i < |lines| :: !IsHeader(Strip(lines[i]))
    ensures TypesInResources(lines) == []
  {
  }

  /** A template written in JSON rather than YAML reports no types: each of
      its lines, once stripped, is empty or opens with punctuation (a quote,
      a brace or a bracket), so no line is a header and the scan never
      enters a resources section, whatever resources the template declares. */
  lemma JsonLinesReportNothing(lines: seq<string>)
    requires forall i | 0 <= i < |lines| ::
      Strip(lines[i]) == [] || Strip(lines[i])[0] in "\"{}[]"
    ensures TypesInResources(lines) == []
  {
    forall i | 0 <= i < |lines|
      ensures !IsHeader(Strip(lines[i]))
    {
      var t := Strip(lines[i]);
      assert t == [] || t[0] != 'R';
    }
    NoHeaderNoTypes(lines);
  }

  /** Every reported type has no whitespace at either end. */
  lemma {:induction false} TypeEntriesTrimmed(lines: seq<string>)
    ensures forall i | 0 <= i < |TypeEntries(lines)| :: IsTrimmed(TypeEntries(lines)[i])
  {
    if lines != [] {
      TypeEntriesTrimmed(lines[1..]);
      var head := LineEntry(lines[0]);
      assert forall i | 0 <= i < |head| :: IsTrimmed(head[i]);
      assert TypeEntries(lines) == head + TypeEntries(lines[1..]);
    }
  }

  lemma TypesInResourcesTrimmed(lines: seq<string>)
    ensures forall i | 0 <= i < |TypesInResources(lines)| :: IsTrimmed(TypesInResources(lines)[i])
  {
    if HeaderIndex(lines).Some? {
      TypeEntriesTrimmed(lines[HeaderIndex(lines).value + 1..]);
    }
  }

  /** Each `Type:` line yields exactly one entry, in document order: the
      entry of line `i` comes right after those of the lines before it. */
  lemma TypeEntryAt(lines: seq<string>, i: nat)
    requires i < |lines| && IsTypeLine(Strip(lines[i]))
    ensures |TypeEntries(lines[..i])| < |TypeEntries(lines)|
    ensures TypeEntries(lines)[|TypeEntries(lines[..i])|] == TypeValue(Strip(lines[i]))
  {
    assert lines == lines[..i] + [lines[i]] + lines[i + 1..];
    TypeEntriesAppend(lines[..i] + [lines[i]], lines[i + 1..]);
    TypeEntriesAppend(lines[..i], [lines[i]]);
  }

  /** Lines that strip to the same text are scanned alike. */
  lemma {:induction false} SameStrippedLines(a: seq<string>, b: seq<string>)
    requires |a| == |b|
    requires forall i | 0 <= i < |a| :: Strip(a[i]) == Strip(b[i])
    ensures HeaderIndex(a) == HeaderIndex(b)
    ensures TypeEntries(a) == TypeEntries(b)
  {
    if a != [] {
      assert Strip(a[0]) == Strip(b[0]);
      assert forall i | 0 <= i < |a| - 1 :: a[1..][i] == a[i + 1] && b[1..][i] == b[i + 1];
      SameStrippedLines(a[1..], b[1..]);
    }
  }

  lemma SameStrippedTails(a: seq<string>, b: seq<string>, n: nat)
    requires |a| == |b| && n <= |a|
    requires forall i | 0 <= i < |a| :: Strip(a[i]) == Strip(b[i])
    ensures TypeEntries(a[n..]) == TypeEntries(b[n..])
  {
    var a', b' := a[n..], b[n..];
    forall i | 0 <= i < |a'| ensures Strip(a'[i]) == Strip(b'[i]) {
      assert a'[i] == a[n + i] && b'[i] == b[n + i];
    }
    SameStrippedLines(a', b');
  }

  lemma SameStrippedResources(a: seq<string>, b: seq<string>)
    requires |a| == |b|
    requires forall i | 0 <= i < |a| :: Strip(a[i]) == Strip(b[i])
    ensures TypesInResources(a) == TypesInResources(b)
  {
    SameStrippedLines(a, b);
    if HeaderIndex(a).Some? {
      SameStrippedTails(a, b, HeaderIndex(a).value + 1);
    }
  }

  /** Indentation does not matter: prefixing each line with whitespace
      leaves the reported types unchanged. */
  lemma IndentationIrrelevant(lines: seq<string>, indents: seq<string>)
    requires |indents| == |lines|
    requires forall i | 0 <= i < |indents| :: AllSpace(indents[i])
    ensures TypesInResources(seq(|lines|, i requires 0 <= i < |lines| => indents[i] + lines[i]))
         == TypesInResources(lines)
  {
    var indented := seq(|lines|, i requires 0 <= i < |lines| => indents[i] + lines[i]);
    forall i | 0 <= i < |lines| ensures Strip(indented[i]) == Strip(lines[i]) {
      StripIgnoresIndent(indents[i], lines[i]);
    }
    SameStrippedResources(indented, lines);
  }

  // ---------------------------------------------------------------------
  // validate_type_dependencies

  /** `pair` is violated: its required type is present, its dependent not. */
  predicate Violates(types: seq<string>, pair: (string, string)) {
    pair.0 in types && pair.1 !in types
  }

  function MissingDependencyMessage(pair: (string, string)): (message: string)
    ensures pair.0 <= message
    ensures |message| > |pair.0| + |pair.1| && message[|message| - |pair.1| - 1..] == pair.1 + "."
  {
    pair.0 + " found without an associated " + pair.1 + "."
  }

  /** Succeeds exactly when no pair is violated; otherwise reports the
      first violated pair, naming both of its types. With no pairs, or with
      none of the required types present, it succeeds. */
  function ValidateTypeDependencies(types: seq<string>, pairs: seq<(string, string)>): (r: (bool, string))
    ensures r.0 <==> forall i | 0 <= i < |pairs| :: !Violates(types, pairs[i])
    ensures r.0 ==> r.1 == AllSatisfiedMessage
    ensures !r.0 ==>
      exists i | 0 <= i < |pairs| ::
        && Violates(types, pairs[i])
        && (forall j | 0 <= j < i :: !Violates(types, pairs[j]))
        && r.1 == MissingDependencyMessage(pairs[i])
    ensures (forall i | 0 <= i < |pairs| :: pairs[i].0 !in types) ==> r == (true, AllSatisfiedMessage)
  {
    if pairs == [] then (true, AllSatisfiedMessage)
    else if Violates(types, pairs[0]) then (false, MissingDependencyMessage(pairs[0]))
    else ValidateTypeDependencies(types, pairs[1..])
  }

  /** The handler's only rule: an EventBus needs an EventBusPolicy. */
  lemma EventBusRule(types: seq<string>)
    ensures ValidateTypeDependencies(types, RequiredPairs) ==
      if EventBusType in types && EventBusPolicyType !in types
      then (false, EventBusMessage)
      else (true, AllSatisfiedMessage)
  {
    assert RequiredPairs[0] == (EventBusType, EventBusPolicyType);
  }

  // ---------------------------------------------------------------------
  // lambda_handler

  /** The handler: reads the event, fetches and decodes the payload, and
      turns the EventBus rule's verdict into the response. */
  method LambdaHandler(event: Json, fetch: Json -> Payload) returns (out: HandlerResult)
    ensures out.Uncaught? <==> !EventReadable(event)
    ensures out.Returned? ==> out.response.clientRequestToken == RequestToken(event)
    ensures EventReadable(event) && fetch(PayloadUrl(event)).FetchFailed? ==>
      out == Returned(InternalFailureResponse(RequestToken(event)))
    ensures EventReadable(event) && fetch(PayloadUrl(event)).Decoded? ==>
      var token := RequestToken(event);
      match fetch(PayloadUrl(event)).doc
      case JObject(fields) =>
        (match Lookup(fields, "template")
         case None => out == Returned(InitialResponse(token))
         case Some(JString(template)) =>
           var types := TypesInResources(SplitLines(template));
           out == Returned(
             if EventBusType in types && EventBusPolicyType !in types
             then NonCompliantResponse(token, EventBusMessage)
             else InitialResponse(token))
         case Some(_) => out == Returned(InternalFailureResponse(token)))
      case JArray(items) =>
        out == Returned(
          if JString("template") in items then InternalFailureResponse(token) else InitialResponse(token))
      case JString(text) =>
        out == Returned(
          if Contains(text, "template") then InternalFailureResponse(token) else InitialResponse(token))
      case _ => out == Returned(InternalFailureResponse(token))
  {
    if !EventReadable(event) {
      return Uncaught;
    }
    var payloadUrl := PayloadUrl(event);
    var response := InitialResponse(RequestToken(event));
    var failed := false;
    var fetched := fetch(payloadUrl);
    if fetched.FetchFailed? {
      failed := true;
    } else {
      var payload := fetched.doc;
      var hasTemplate := PyIn("template", payload);
      if hasTemplate.Raised? {
        failed := true;
      } else if hasTemplate.value {
        var template := PyGet(payload, "template", JNull);
        if template.Raised? || !template.value.JString? {
          failed := true;
        } else {
          var resourceTypes := ExtractResourceTypes(template.value.s);
          var (isCompliant, message) := ValidateTypeDependencies(resourceTypes, RequiredPairs);
          EventBusRule(resourceTypes);
          if !isCompliant {
            response := response.(hookStatus := Failed);
            response := response.(message := message);
            response := response.(errorCode := Some(NonCompliant));
          }
        }
      }
    }
    if failed {
      response := response.(hookStatus := Failed);
      response := response.(message := InternalFailureMessage);
      response := response.(errorCode := Some(InternalFailure));
    }
    return Returned(response);
  }
}
