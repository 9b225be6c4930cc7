// The rules of Extraction/Extractor/PhpDocOperationExtractor.php that do not
// call back into the generator: the parsed doc block of a controller method
// is an input record, class resolution (`class_exists`, the FQCN lookup of
// the declaring class) and the FOSRest view's status code are oracles. The
// `extract` method that applies these rules lives in the engine.

module PhpDocRules {
  import opened Wrappers
  import opened PhpValues
  import opened Strings
  import opened OpenApiSchema

  /** A `@return` tag: its type as written (split on '|' when compound) and its description. */
  datatype ReturnTag = ReturnTag(compound: bool, typeText: string, description: string)

  /** A `@param` tag. */
  datatype ParamTag = ParamTag(variableName: string, typeText: string, description: string)

  /** The parsed doc block of a method. */
  datatype DocBlock = DocBlock(
    summary: string,
    description: string,
    returnTags: seq<ReturnTag>,
    deprecated: bool,
    params: seq<ParamTag>)

  /** Class resolution: the classes that exist and the FQCN lookup in the declaring class's namespace and imports. */
  datatype Resolver = Resolver(classes: set<string>, fqcn: (string, string) -> string)

  /** `canExtract`: a ReflectionMethod source and an Operation target. */
  predicate CanExtract(isMethodSource: bool, isOperationTarget: bool)
  {
    isMethodSource && isOperationTarget
  }

  // ---------------------------------------------------------------------
  // convertTypeToFQCN

  const Brackets: set<char> := {'[', ']'}

  /** The class name a bare type resolves to: itself when the class exists, else its FQCN. */
  function ResolveClass(res: Resolver, declaringClass: string, t: string): string
  {
    if t in res.classes then t else res.fqcn(declaringClass, t)
  }

  /**
   * `convertTypeToFQCN`: a type holding "[]" loses the brackets at both ends,
   * is resolved, and gets "[]" back.
   */
  function ConvertTypeToFqcn(res: Resolver, declaringClass: string, typeText: string): (r: string)
    ensures var t := Trim(typeText, Whitespace);
      Contains(t, "[]") ==> |r| >= 2 && r[|r| - 2..] == "[]" && r[..|r| - 2] == ResolveClass(res, declaringClass, Trim(t, Brackets))
    ensures var t := Trim(typeText, Whitespace);
      !Contains(t, "[]") ==> r == ResolveClass(res, declaringClass, t)
  {
    var t := Trim(typeText, Whitespace);
    if Contains(t, "[]") then ResolveClass(res, declaringClass, Trim(t, Brackets)) + "[]"
    else ResolveClass(res, declaringClass, t)
  }

  lemma LTrimNoop(s: string, chars: set<char>)
    requires s != [] && s[0] !in chars
    ensures LTrim(s, chars) == s
  {
  }

  lemma RTrimSuffix(t: string, chars: set<char>, suffix: string)
    requires t != [] && t[|t| - 1] !in chars
    requires forall i :: 0 <= i < |suffix| ==> suffix[i] in chars
    ensures RTrim(t + suffix, chars) == t
    decreases |suffix|
  {
    if suffix != [] {
      var s := t + suffix;
      assert s[|s| - 1] == suffix[|suffix| - 1];
      assert s[..|s| - 1] == t + suffix[..|suffix| - 1];
      RTrimSuffix(t, chars, suffix[..|suffix| - 1]);
    } else {
      assert t + suffix == t;
    }
  }

  lemma ContainsSuffix(t: string, suffix: string)
    ensures Contains(t + suffix, suffix)
    decreases |t|
  {
    if t == [] {
      assert t + suffix == suffix;
    } else {
      assert (t + suffix)[1..] == t[1..] + suffix;
      ContainsSuffix(t[1..], suffix);
    }
  }

  /**
   * `T[]` for a type name `T` with no brackets or blanks at its ends becomes
   * the resolved `T` followed by "[]".
   */
  lemma ArrayTypeResolved(res: Resolver, declaringClass: string, t: string)
    requires t != [] && t[0] !in Brackets && t[0] !in Whitespace
    requires t[|t| - 1] !in Brackets
    ensures ConvertTypeToFqcn(res, declaringClass, t + "[]") == ResolveClass(res, declaringClass, t) + "[]"
  {
    var s := t + "[]";
    assert s[0] == t[0];
    LTrimNoop(s, Whitespace);
    RTrimSuffix(s, Whitespace, "");
    assert s + "" == s;
    assert Trim(s, Whitespace) == s;
    ContainsSuffix(t, "[]");
    LTrimNoop(s, Brackets);
    RTrimSuffix(t, Brackets, "[]");
    assert Trim(s, Brackets) == t;
  }

  /** `shouldSkipType`: membership in the excluded list. */
  predicate ShouldSkipType(excluded: seq<string>, t: string)
  {
    t in excluded
  }

  // ---------------------------------------------------------------------
  // Responses

  /** One `generateResponse` call: a description and the type its schema is extracted from. */
  datatype ResponseRequest = ResponseRequest(description: string, typeName: string)

  /** `generateResponse`'s defaults. */
  const GenericResponse: ResponseRequest := ResponseRequest("Generic 200 response", "test")

  /** The types of a return tag. */
  function TagTypes(tag: ReturnTag): (r: seq<string>)
    ensures |r| >= 1
  {
    if tag.compound then Explode('|', tag.typeText) else [tag.typeText]
  }

  function Converted(res: Resolver, declaringClass: string, types: seq<string>): (r: seq<string>)
    ensures |r| == |types| && forall k :: 0 <= k < |types| ==> r[k] == ConvertTypeToFqcn(res, declaringClass, types[k])
  {
    seq(|types|, k requires 0 <= k < |types| => ConvertTypeToFqcn(res, declaringClass, types[k]))
  }

  /**
   * The loop over a tag's (converted) types, with its counter `$i`: a
   * skipped type either bumps the counter or, once the counter reaches the
   * number of types, asks for the generic response.
   */
  function TypeLoop(ts: seq<string>, count: int, excluded: seq<string>, description: string): (int, seq<ResponseRequest>)
    decreases |ts|
  {
    if ts == [] then (1, [])
    else
      var prior := TypeLoop(ts[..|ts| - 1], count, excluded, description);
      var t := ts[|ts| - 1];
      if ShouldSkipType(excluded, t) then
        if prior.0 < count then (prior.0 + 1, prior.1) else (prior.0, prior.1 + [GenericResponse])
      else (prior.0, prior.1 + [ResponseRequest(description, t)])
  }

  /** The types that are not excluded, each as a response request. */
  function Kept(ts: seq<string>, excluded: seq<string>, description: string): seq<ResponseRequest>
    decreases |ts|
  {
    if ts == [] then []
    else
      var prior := Kept(ts[..|ts| - 1], excluded, description);
      if ShouldSkipType(excluded, ts[|ts| - 1]) then prior else prior + [ResponseRequest(description, ts[|ts| - 1])]
  }

  function Skips(ts: seq<string>, excluded: seq<string>): (n: nat)
    ensures n <= |ts|
    decreases |ts|
  {
    if ts == [] then 0
    else Skips(ts[..|ts| - 1], excluded) + if ShouldSkipType(excluded, ts[|ts| - 1]) then 1 else 0
  }

  predicate AllSkipped(ts: seq<string>, excluded: seq<string>)
  {
    forall k :: 0 <= k < |ts| ==> ShouldSkipType(excluded, ts[k])
  }

  lemma {:induction false} SkipsCount(ts: seq<string>, excluded: seq<string>, description: string)
    ensures Skips(ts, excluded) == |ts| <==> AllSkipped(ts, excluded)
    ensures AllSkipped(ts, excluded) ==> Kept(ts, excluded, description) == []
    decreases |ts|
  {
    if ts != [] {
      var init := ts[..|ts| - 1];
      SkipsCount(init, excluded, description);
      assert forall k :: 0 <= k < |init| ==> init[k] == ts[k];
    }
  }

  /**
   * The counter's meaning: on a prefix of the tag's types, `$i` is one more
   * than the types skipped so far, except once every type has been skipped,
   * when the generic response has been asked for.
   */
  lemma {:induction false} TypeLoopPrefix(ts: seq<string>, count: int, excluded: seq<string>, description: string)
    requires |ts| <= count
    ensures !(AllSkipped(ts, excluded) && |ts| == count && count > 0) ==>
      TypeLoop(ts, count, excluded, description) == (1 + Skips(ts, excluded), Kept(ts, excluded, description))
    ensures AllSkipped(ts, excluded) && |ts| == count && count > 0 ==>
      TypeLoop(ts, count, excluded, description) == (count, [GenericResponse])
    decreases |ts|
  {
    if ts != [] {
      var init := ts[..|ts| - 1];
      var t := ts[|ts| - 1];
      TypeLoopPrefix(init, count, excluded, description);
      SkipsCount(init, excluded, description);
      SkipsCount(ts, excluded, description);
      assert forall k :: 0 <= k < |init| ==> init[k] == ts[k];
      if AllSkipped(ts, excluded) {
        assert AllSkipped(init, excluded);
        if |ts| == count && count > 0 {
          assert ShouldSkipType(excluded, t);
          assert TypeLoop(init, count, excluded, description) == (count, []);
          assert [] + [GenericResponse] == [GenericResponse];
        }
      }
    }
  }

  /**
   * A return tag asks for one response per type that is not excluded, in
   * order, and for the generic response exactly when all its types are excluded.
   */
  lemma TagResponsesRule(ts: seq<string>, excluded: seq<string>, description: string)
    requires ts != []
    ensures TypeLoop(ts, |ts|, excluded, description).1
      == Kept(ts, excluded, description) + if AllSkipped(ts, excluded) then [GenericResponse] else []
  {
    TypeLoopPrefix(ts, |ts|, excluded, description);
    SkipsCount(ts, excluded, description);
  }

  /** The requests of one return tag. */
  function TagRequests(res: Resolver, declaringClass: string, excluded: seq<string>, tag: ReturnTag): seq<ResponseRequest>
  {
    var ts := TagTypes(tag);
    TypeLoop(Converted(res, declaringClass, ts), |ts|, excluded, tag.description).1
  }

  /** The requests of all return tags in order; none at all yields the one generic response. */
  function ResponsePlan(res: Resolver, declaringClass: string, excluded: seq<string>, tags: seq<ReturnTag>): seq<ResponseRequest>
  {
    if tags == [] then [GenericResponse] else TagsRequests(res, declaringClass, excluded, tags)
  }

  function TagsRequests(res: Resolver, declaringClass: string, excluded: seq<string>, tags: seq<ReturnTag>): seq<ResponseRequest>
    decreases |tags|
  {
    if tags == [] then []
    else TagsRequests(res, declaringClass, excluded, tags[..|tags| - 1]) + TagRequests(res, declaringClass, excluded, tags[|tags| - 1])
  }

  lemma TagsRequestsStep(res: Resolver, declaringClass: string, excluded: seq<string>, tags: seq<ReturnTag>, k: nat)
    requires k < |tags|
    ensures TagsRequests(res, declaringClass, excluded, tags[..k + 1])
      == TagsRequests(res, declaringClass, excluded, tags[..k]) + TagRequests(res, declaringClass, excluded, tags[k])
  {
    assert tags[..k + 1][..k] == tags[..k];
  }

  lemma PrefixSnoc(s: seq<string>, k: nat)
    requires k < |s|
    ensures s[..k + 1] == s[..k] + [s[k]]
  {
  }

  lemma TypeLoopSnoc(ts: seq<string>, t: string, count: int, excluded: seq<string>, description: string)
    ensures var prior := TypeLoop(ts, count, excluded, description);
      TypeLoop(ts + [t], count, excluded, description)
        == if ShouldSkipType(excluded, t) then
             if prior.0 < count then (prior.0 + 1, prior.1) else (prior.0, prior.1 + [GenericResponse])
           else (prior.0, prior.1 + [ResponseRequest(description, t)])
  {
    assert (ts + [t])[..|ts|] == ts;
  }

  /** The loop over one tag's types, as written with its counter. */
  method TagLoop(res: Resolver, declaringClass: string, excluded: seq<string>, tag: ReturnTag) returns (out: seq<ResponseRequest>)
    ensures out == TagRequests(res, declaringClass, excluded, tag)
  {
    var types := TagTypes(tag);
    out := TypesLoop(res, declaringClass, excluded, types, tag.description);
  }

  /** The `foreach` over the types with the counter `$i`, starting at 1. */
  method TypesLoop(res: Resolver, declaringClass: string, excluded: seq<string>, types: seq<string>, description: string)
    returns (out: seq<ResponseRequest>)
    ensures out == TypeLoop(Converted(res, declaringClass, types), |types|, excluded, description).1
  {
    var i := 1;
    var count := |types|;
    out := [];
    ghost var conv := Converted(res, declaringClass, types);
    var k := 0;
    while k < |types|
      invariant 0 <= k <= |types|
      invariant i == TypeLoop(conv[..k], count, excluded, description).0
      invariant out == TypeLoop(conv[..k], count, excluded, description).1
    {
      var actualType := ConvertTypeToFqcn(res, declaringClass, types[k]);
      assert conv[k] == actualType;
      PrefixSnoc(conv, k);
      TypeLoopSnoc(conv[..k], actualType, count, excluded, description);
      if ShouldSkipType(excluded, actualType) {
        if i < count {
          i := i + 1;
          k := k + 1;
          continue;
        } else {
          out := out + [GenericResponse];
          k := k + 1;
          continue;
        }
      }
      out := out + [ResponseRequest(description, actualType)];
      k := k + 1;
    }
    assert conv[..|types|] == conv;
  }

  /** The branch on the presence of return tags and the loop over them. */
  method PlanResponses(res: Resolver, declaringClass: string, excluded: seq<string>, tags: seq<ReturnTag>) returns (out: seq<ResponseRequest>)
    ensures out == ResponsePlan(res, declaringClass, excluded, tags)
  {
    if tags == [] {
      return [GenericResponse];
    }
    out := [];
    var k := 0;
    while k < |tags|
      invariant 0 <= k <= |tags|
      invariant out == TagsRequests(res, declaringClass, excluded, tags[..k])
    {
      TagsRequestsStep(res, declaringClass, excluded, tags, k);
      var more := TagLoop(res, declaringClass, excluded, tags[k]);
      out := out + more;
      k := k + 1;
    }
    assert tags[..|tags|] == tags;
  }

  /** Without return tags exactly one, generic, response is asked for. */
  lemma NoReturnTagsOneResponse(res: Resolver, declaringClass: string, excluded: seq<string>)
    ensures ResponsePlan(res, declaringClass, excluded, []) == [GenericResponse]
  {
  }

  /**
   * `$operation->responses[$statusCode] = $response` for each request: every
   * response lands on the same key, so the last one written is the one kept.
   */
  function PutAll<V>(responses: seq<(Key, V)>, code: int, written: seq<V>): (r: seq<(Key, V)>)
    decreases |written|
  {
    if written == [] then responses
    else ArrPut(PutAll(responses, code, written[..|written| - 1]), IntKey(code), written[|written| - 1])
  }

  lemma {:induction false} PutAllLastWins<V>(responses: seq<(Key, V)>, code: int, written: seq<V>, k: Key)
    ensures written != [] ==> ArrGet(PutAll(responses, code, written), IntKey(code)) == Some(written[|written| - 1])
    ensures k != IntKey(code) ==> ArrGet(PutAll(responses, code, written), k) == ArrGet(responses, k)
    decreases |written|
  {
    if written != [] {
      var prior := PutAll(responses, code, written[..|written| - 1]);
      PutAllLastWins(responses, code, written[..|written| - 1], k);
      GetAfterPut(prior, IntKey(code), written[|written| - 1]);
      if k != IntKey(code) {
        GetOtherAfterPut(prior, IntKey(code), written[|written| - 1], k);
      }
    }
  }

  // ---------------------------------------------------------------------
  // Summary, description and deprecation

  /** `summary` is taken from the doc block only when the operation has none. */
  function SummaryRule(op: Operation, doc: DocBlock): (r: Option<string>)
    ensures TruthyString(op.summary) ==> r == op.summary
    ensures !TruthyString(op.summary) ==> r == Some(doc.summary)
  {
    if !TruthyString(op.summary) then Some(doc.summary) else op.summary
  }

  /** `description` as written: replaced by the doc block's only when the operation already has one. */
  function DescriptionAsWritten(op: Operation, doc: DocBlock): (r: Option<string>)
    ensures TruthyString(op.description) ==> r == Some(doc.description)
    ensures !TruthyString(op.description) ==> r == op.description
  {
    if TruthyString(op.description) then Some(doc.description) else op.description
  }

  /** `description` as the summary rule beside it shows is meant: filled only when empty. */
  function DescriptionRule(op: Operation, doc: DocBlock): (r: Option<string>)
    ensures TruthyString(op.description) ==> r == op.description
    ensures !TruthyString(op.description) ==> r == Some(doc.description)
  {
    if !TruthyString(op.description) then Some(doc.description) else op.description
  }

  /**
   * The inverted condition: an operation without a description never gets the
   * doc block's, and one that has a description loses it.
   */
  lemma DescriptionInverted()
    ensures DescriptionAsWritten(EmptyOperation, DocBlock("", "From the doc block", [], false, [])) == None
    ensures DescriptionAsWritten(EmptyOperation.(description := Some("Hand written")), DocBlock("", "From the doc block", [], false, []))
      == Some("From the doc block")
    ensures DescriptionRule(EmptyOperation, DocBlock("", "From the doc block", [], false, [])) == Some("From the doc block")
  {
  }

  /** The two rules agree on no operation whose description could be replaced by a different one. */
  lemma DescriptionRulesDisagree(op: Operation, doc: DocBlock)
    requires op.description != Some(doc.description)
    ensures DescriptionAsWritten(op, doc) != DescriptionRule(op, doc)
  {
  }

  /** A `@deprecated` tag marks the operation; its absence leaves the flag as it was. */
  function DeprecatedRule(op: Operation, doc: DocBlock): (r: bool)
    ensures doc.deprecated ==> r
    ensures !doc.deprecated ==> r == op.deprecated
  {
    doc.deprecated || op.deprecated
  }

  // ---------------------------------------------------------------------
  // Parameters

  /** `trim($tag->getVariableName(), '$')`. */
  function ParameterName(tag: ParamTag): string
  {
    Trim(tag.variableName, {'$'})
  }

  /** `$existingParameter->name == $parameterName`: a null name equals only "". */
  predicate NameMatches(p: Parameter, name: string)
  {
    if p.name.Some? then p.name.value == name else name == ""
  }

  /** The first position satisfying the predicate. */
  function FirstMatch(params: seq<Parameter>, name: string): (r: Option<nat>)
    ensures r.Some? ==> (r.value < |params| && NameMatches(params[r.value], name)
      && forall j :: 0 <= j < r.value ==> !NameMatches(params[j], name))
    ensures r.None? ==> forall j :: 0 <= j < |params| ==> !NameMatches(params[j], name)
    decreases |params|
  {
    if params == [] then None
    else if NameMatches(params[0], name) then Some(0)
    else
      var rest := FirstMatch(params[1..], name);
      if rest.Some? then Some(rest.value + 1) else None
  }

  /** The loop with `break` looking for an existing parameter of that name. */
  method FindParameter(params: seq<Parameter>, name: string) returns (r: Option<nat>)
    ensures r == FirstMatch(params, name)
  {
    var k := 0;
    while k < |params|
      invariant 0 <= k <= |params|
      invariant forall j :: 0 <= j < k ==> !NameMatches(params[j], name)
    {
      if NameMatches(params[k], name) {
        return Some(k);
      }
      k := k + 1;
    }
    return None;
  }

  /** The first BodyParameter among the operation's parameters. */
  function FirstBody(params: seq<Parameter>): (r: Option<nat>)
    ensures r.Some? ==> (r.value < |params| && params[r.value].className == "BodyParameter"
      && forall j :: 0 <= j < r.value ==> params[j].className != "BodyParameter")
    ensures r.None? ==> forall j :: 0 <= j < |params| ==> params[j].className != "BodyParameter"
    decreases |params|
  {
    if params == [] then None
    else if params[0].className == "BodyParameter" then Some(0)
    else
      var rest := FirstBody(params[1..]);
      if rest.Some? then Some(rest.value + 1) else None
  }

  method FindBodyParameter(params: seq<Parameter>) returns (r: Option<nat>)
    ensures r == FirstBody(params)
  {
    var k := 0;
    while k < |params|
      invariant 0 <= k <= |params|
      invariant forall j :: 0 <= j < k ==> params[j].className != "BodyParameter"
    {
      if params[k].className == "BodyParameter" {
        return Some(k);
      }
      k := k + 1;
    }
    return None;
  }

  /** A matched parameter gets the tag's description and type only where it has none. */
  function FillParameter(p: Parameter, tag: ParamTag, convertedType: string): (r: Parameter)
    ensures TruthyString(p.description) ==> r.description == p.description
    ensures !TruthyString(p.description) ==> r.description == Some(tag.description)
    ensures TruthyString(p.typeName) ==> r.typeName == p.typeName
    ensures !TruthyString(p.typeName) ==> r.typeName == Some(convertedType)
    ensures r.(description := p.description, typeName := p.typeName) == p
  {
    var withDescription := if !TruthyString(p.description) then p.(description := Some(tag.description)) else p;
    if !TruthyString(withDescription.typeName) then withDescription.(typeName := Some(convertedType)) else withDescription
  }

  /** `$bodyParameter->schema->properties[$name]` when it is set. */
  function BodyProperty(body: Parameter, name: string): (r: Option<Node>)
    ensures r.Some? ==> body.schema.Some? && body.schema.value.Schema? && body.schema.value.properties.Some?
  {
    if body.schema.Some? && body.schema.value.Schema? && body.schema.value.properties.Some?
    then ArrGet(body.schema.value.properties.value, name)
    else None
  }

  /**
   * The description of a body property is filled only when it has none. A
   * Reference has no such field; what PHP would write there is not kept.
   */
  function FillPropertyDescription(n: Node, description: string): (r: Node)
    ensures n.Schema? && !TruthyString(n.description) ==> r == n.(description := Some(description))
    ensures !(n.Schema? && !TruthyString(n.description)) ==> r == n
  {
    if n.Schema? && !TruthyString(n.description) then n.(description := Some(description)) else n
  }

  /** `!$parameter->type`: true for a Schema without a type and for a Reference, which has no such field. */
  predicate NeedsType(n: Node)
  {
    !(n.Schema? && TruthyString(n.typeName))
  }

  // ---------------------------------------------------------------------
  // Exception response codes

  datatype ExceptionInfo = ExceptionInfo(code: int, message: Option<string>)

  const DefaultExceptionInfo: ExceptionInfo := ExceptionInfo(500, None)

  /** The first registered class the exception is an instance of. */
  function ExceptionInformation(registered: seq<(string, ExceptionInfo)>, ancestors: set<string>): (r: ExceptionInfo)
    decreases |registered|
  {
    if registered == [] then DefaultExceptionInfo
    else if registered[0].0 in ancestors then registered[0].1
    else ExceptionInformation(registered[1..], ancestors)
  }

  /**
   * The answer is the entry of the first registered class that matches, or
   * (500, null) when none does.
   */
  lemma {:induction false} ExceptionInformationFirst(registered: seq<(string, ExceptionInfo)>, ancestors: set<string>)
    ensures (forall k :: 0 <= k < |registered| ==> registered[k].0 !in ancestors) ==>
      ExceptionInformation(registered, ancestors) == DefaultExceptionInfo
    ensures forall k :: (0 <= k < |registered| && registered[k].0 in ancestors
      && (forall j :: 0 <= j < k ==> registered[j].0 !in ancestors)) ==>
      ExceptionInformation(registered, ancestors) == registered[k].1
    decreases |registered|
  {
    if registered != [] {
      var rest := registered[1..];
      ExceptionInformationFirst(rest, ancestors);
      forall k | 0 <= k < |registered| && registered[k].0 in ancestors
        && (forall j :: 0 <= j < k ==> registered[j].0 !in ancestors)
        ensures ExceptionInformation(registered, ancestors) == registered[k].1
      {
        if k > 0 {
          assert registered[0].0 !in ancestors;
          assert registered[k] == rest[k - 1];
          forall j | 0 <= j < k - 1
            ensures rest[j].0 !in ancestors
          {
            assert rest[j] == registered[j + 1];
          }
        }
      }
      if forall k :: 0 <= k < |registered| ==> registered[k].0 !in ancestors {
        forall k | 0 <= k < |rest|
          ensures rest[k].0 !in ancestors
        {
          assert rest[k] == registered[k + 1];
        }
      }
    }
  }

  /** The extractor's own state: the registered exception codes and the excluded return types. */
  class PhpDocOperationExtractor {
    var exceptionResponseCodes: seq<(string, ExceptionInfo)>
    var excludedReturnTypes: seq<string>
    /** The status code of the FOSRest view annotation of a method, when it has one that sets it. */
    const viewStatusCode: (string, string) -> Option<int>
    const resolver: Resolver

    constructor (view: (string, string) -> Option<int>, res: Resolver)
      ensures exceptionResponseCodes == [] && excludedReturnTypes == []
      ensures viewStatusCode == view && resolver == res
    {
      exceptionResponseCodes := [];
      excludedReturnTypes := [];
      viewStatusCode := view;
      resolver := res;
    }

    method SetExcludedTypes(types: seq<string>)
      modifies this
      ensures excludedReturnTypes == types && exceptionResponseCodes == old(exceptionResponseCodes)
    {
      excludedReturnTypes := types;
    }

    /** `registerExceptionResponseCodes`: registering a class again overwrites its entry in place. */
    method RegisterExceptionResponseCodes(exceptionClass: string, code: int, message: Option<string>)
      modifies this
      ensures exceptionResponseCodes == ArrPut(old(exceptionResponseCodes), exceptionClass, ExceptionInfo(code, message))
      ensures ArrGet(exceptionResponseCodes, exceptionClass) == Some(ExceptionInfo(code, message))
      ensures forall c :: c != exceptionClass ==> ArrGet(exceptionResponseCodes, c) == ArrGet(old(exceptionResponseCodes), c)
      ensures KeysOf(exceptionResponseCodes) == if exceptionClass in KeysOf(old(exceptionResponseCodes))
        then KeysOf(old(exceptionResponseCodes)) else KeysOf(old(exceptionResponseCodes)) + [exceptionClass]
      ensures excludedReturnTypes == old(excludedReturnTypes)
    {
      var info := ExceptionInfo(code, message);
      GetAfterPut(exceptionResponseCodes, exceptionClass, info);
      forall c | c != exceptionClass
        ensures ArrGet(ArrPut(exceptionResponseCodes, exceptionClass, info), c) == ArrGet(exceptionResponseCodes, c)
      {
        GetOtherAfterPut(exceptionResponseCodes, exceptionClass, info, c);
      }
      PutKeys(exceptionResponseCodes, exceptionClass, info);
      exceptionResponseCodes := ArrPut(exceptionResponseCodes, exceptionClass, info);
    }

    /** `getExceptionInformation`: the loop over the registered classes. */
    method GetExceptionInformation(ancestors: set<string>) returns (info: ExceptionInfo)
      ensures info == ExceptionInformation(exceptionResponseCodes, ancestors)
    {
      var k := 0;
      while k < |exceptionResponseCodes|
        invariant 0 <= k <= |exceptionResponseCodes|
        invariant ExceptionInformation(exceptionResponseCodes[k..], ancestors) == ExceptionInformation(exceptionResponseCodes, ancestors)
      {
        if exceptionResponseCodes[k].0 in ancestors {
          return exceptionResponseCodes[k].1;
        }
        assert exceptionResponseCodes[k..][1..] == exceptionResponseCodes[k + 1..];
        k := k + 1;
      }
      return DefaultExceptionInfo;
    }

    /** `shouldSkipType` with the configured list. */
    predicate SkipsType(t: string)
      reads this
    {
      ShouldSkipType(excludedReturnTypes, t)
    }

    /** `getStatusCode`: the view's status code, else 200. */
    function StatusCode(className: string, methodName: string): (r: int)
      ensures viewStatusCode(className, methodName).Some? ==> r == viewStatusCode(className, methodName).value
      ensures viewStatusCode(className, methodName).None? ==> r == 200
    {
      viewStatusCode(className, methodName).GetOr(200)
    }
  }
}
