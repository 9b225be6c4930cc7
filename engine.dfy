// OpenApiGenerator.php and the `extract` methods of the core extractors
// (TypeSchemaExtractor, JmsExtractor, ConstraintExtractor,
// PhpDocOperationExtractor and the JSON-document extractor). The generator
// runs every registered extractor in turn on the (resolved) target, and an
// extractor calls back into the generator for the nested schemas it needs,
// so the loop and the extractors are one mutually recursive group, bounded
// by `fuel`.
//
// Schema nodes are values. A node that lives in the registry
// (`components.schemas`) is known by its `Slot`, and every change made to it
// is written back there at once, so that a nested extraction that reads the
// registry sees it as PHP's shared object would be seen. A node that lives
// nowhere else (a `new Schema()` handed to the generator) is carried in
// local variables, and the caller reads its final state from the result.

module Engine {
  import opened Wrappers
  import opened PhpValues
  import opened Strings
  import opened OpenApiSchema
  import opened Document
  import opened References
  import opened Extraction
  import TypeSchema
  import JmsRules
  import ConstraintRules
  import PhpDocRules
  import ExtractorTable

  // ---------------------------------------------------------------------
  // Extractors

  /**
   * A registered extractor with the collaborators it was built with.
   * `classes` is what `class_exists` accepts; `parentOf` is the parent class
   * reflection reports (None for `false`); `docs` and `declaringClass` are
   * the parsed doc block and the declaring class of a controller method;
   * `decode` is `json_decode($s, true)` (None when it reports an error).
   */
  datatype Extractor =
    | TypeSchemaExtraction(ts: TypeSchema.TypeSchemaExtractor, classes: set<string>)
    | JmsExtraction(
        factory: map<string, JmsRules.JmsClassMetadata>,
        naming: JmsRules.NamingStrategy,
        excluded: JmsRules.GroupsExclusion,
        ts: TypeSchema.TypeSchemaExtractor,
        parentOf: string -> Option<string>)
    | ConstraintExtraction(
        rules: ConstraintRules.ConstraintExtractor,
        metadata: ConstraintRules.MetadataFactory,
        effect: ConstraintRules.Effect)
    | PhpDocExtraction(
        p: PhpDocRules.PhpDocOperationExtractor,
        docs: (string, string) -> PhpDocRules.DocBlock,
        declaringClass: (string, string) -> string)
    | JsonSchemaExtraction(decode: string -> Option<Value>)

  /**
   * The parameter a ConstraintExtractor reads its validation groups from,
   * with its default, looked up in a context's parameter bag.
   */
  function ValidationGroups(params: map<string, Value>): (v: Value)
    ensures "validation-groups" !in params ==> v == VArr([])
  {
    if "validation-groups" in params then params["validation-groups"] else VArr([])
  }

  /**
   * The serializer groups a class extraction merges in: the parameter
   * `"<direction>-model-context"` when a direction is set, else
   * `"model-context"`, null when missing.
   */
  function ModelContext(params: map<string, Value>): (v: Value)
    ensures var key := TypeSchema.ModelContextKey(if "direction" in params then params["direction"] else VNull);
      v == if key in params then params[key] else VNull
  {
    var direction := if "direction" in params then params["direction"] else VNull;
    var key := TypeSchema.ModelContextKey(direction);
    if key in params then params[key] else VNull
  }

  /** The definition a class extraction finds under its name: the stored one, or a new object schema. */
  function DefinitionBefore(schemas: map<string, Node>, definition: string): (n: Node)
    ensures definition in schemas ==> n == schemas[definition]
    ensures definition !in schemas ==> n == EmptySchema.(typeName := Some("object"))
  {
    if definition in schemas then schemas[definition] else EmptySchema.(typeName := Some("object"))
  }

  /** `is_string($source)`, and the string. */
  predicate IsStringSource(source: Source)
  {
    source.SourceValue? && source.v.VStr?
  }

  /** `$target instanceof Schema`. */
  predicate IsSchemaTarget(target: Item)
  {
    target.ItemNode? && target.node.Schema?
  }

  /**
   * `canExtract` of the JSON-document extractor: a string source, the root
   * document as target, a JSON text that decodes to an array with an
   * "openapi" entry whose text starts with "3.". A JSON text that decodes to
   * a scalar, and an "openapi" entry that is an array, make the built-ins
   * used on them throw.
   */
  function JsonApplicable(decode: string -> Option<Value>, source: Source, target: Item): (r: Result<bool>)
    ensures r == Success(true) ==> IsStringSource(source) && target.ItemDocument?
  {
    if !IsStringSource(source) || !target.ItemDocument? then Success(false)
    else match decode(source.v.s)
      case None => Success(false)
      case Some(doc) =>
        if !doc.VArr? then Failure(EngineError("TypeError: array_key_exists(): Argument #2 ($array) must be of type array"))
        else match ArrGet(doc.entries, StrKey("openapi"))
          case None => Success(false)
          case Some(v) =>
            if v.VArr? || v.VAny? then Failure(EngineError("TypeError: strpos(): Argument #1 ($haystack) must be of type string"))
            else Success(StartsWith(ToPhpString(v), "3."))
  }

  /** `$extractor->canExtract($source, $realTarget, $extractionContext)`. */
  function Applicable(e: Extractor, source: Source, target: Item, params: map<string, Value>): (r: Result<bool>)
  {
    match e
    case TypeSchemaExtraction(_, classes) =>
      Success(IsSchemaTarget(target) && source.SourceValue? && TypeSchema.GetPrimitiveType(source.v, classes).Some?)
    case JmsExtraction(factory, _, _, _, _) =>
      Success(JmsRules.CanExtract(source.SourceClass?, IsSchemaTarget(target), if source.SourceClass? then source.name else "", factory))
    case ConstraintExtraction(rules, metadata, _) =>
      ConstraintRules.CanExtract(rules, metadata, source, target, ValidationGroups(params))
    case PhpDocExtraction(_, _, _) =>
      Success(PhpDocRules.CanExtract(source.SourceMethod?, target.ItemOperation?))
    case JsonSchemaExtraction(decode) =>
      JsonApplicable(decode, source, target)
  }

  /**
   * Each extractor applies to one kind of target: the schema extractors to a
   * Schema (never a Reference), the doc-block extractor to an Operation, the
   * JSON extractor to the root document; and each to one kind of source.
   */
  lemma ApplicableTargets(e: Extractor, source: Source, target: Item, params: map<string, Value>)
    requires Applicable(e, source, target, params) == Success(true)
    ensures (e.TypeSchemaExtraction? || e.JmsExtraction? || e.ConstraintExtraction?) ==> IsSchemaTarget(target)
    ensures e.TypeSchemaExtraction? ==> source.SourceValue? && source.v.VStr?
    ensures (e.JmsExtraction? || e.ConstraintExtraction?) ==> source.SourceClass?
    ensures e.PhpDocExtraction? ==> target.ItemOperation? && source.SourceMethod?
    ensures e.JsonSchemaExtraction? ==> target.ItemDocument? && IsStringSource(source)
  {
  }

  /** A JSON text that is no JSON, or has no "openapi" entry, is not taken as a document. */
  lemma JsonNeedsVersion(decode: string -> Option<Value>, s: string)
    requires decode(s).None? || (decode(s).value.VArr? && ArrGet(decode(s).value.entries, StrKey("openapi")).None?)
    ensures JsonApplicable(decode, SourceValue(VStr(s)), ItemDocument) == Success(false)
  {
  }

  /** An OpenAPI 3 version string makes the JSON extractor apply; a Swagger 2 one does not. */
  lemma JsonVersionRule(decode: string -> Option<Value>, s: string, version: string)
    requires decode(s) == Some(VArr([(StrKey("openapi"), VStr(version))]))
    ensures JsonApplicable(decode, SourceValue(VStr(s)), ItemDocument) == Success(StartsWith(version, "3."))
  {
    assert ArrGet([(StrKey("openapi"), VStr(version))], StrKey("openapi")) == Some(VStr(version));
  }

  /** The registered TypeSchemaExtractor objects, whose hash ledgers an extraction may change, are `repr`'s. */
  predicate Owned(e: Extractor, repr: set<TypeSchema.TypeSchemaExtractor>)
  {
    e.TypeSchemaExtraction? ==> e.ts in repr
  }

  // ---------------------------------------------------------------------
  // What the generator's loop records

  /** The classes of the objects a target can be. */
  datatype ClassTag = SchemaClass | ReferenceClass | OperationClass | OpenApiClass | ComponentsClass

  /** `get_class`, None for what is not an object. */
  function ItemClass(i: Item): (r: Option<ClassTag>)
    ensures r.Some? <==> IsObject(i)
    ensures r == Some(SchemaClass) <==> IsSchemaTarget(i)
    ensures r == Some(ReferenceClass) <==> IsReference(i)
  {
    match i
    case ItemNode(n) => Some(if n.Reference? then ReferenceClass else SchemaClass)
    case ItemOperation(_) => Some(OperationClass)
    case ItemDocument => Some(OpenApiClass)
    case ItemComponents => Some(ComponentsClass)
    case ItemNodeArray => None
    case ItemData(_) => None
  }

  /** A target whose fields an extractor writes: a Schema or an Operation. */
  predicate Mutable(i: Item)
  {
    IsSchemaTarget(i) || i.ItemOperation?
  }

  /**
   * Resolving a Reference gives a node of the registry together with its
   * slot, or something the extractors do not write.
   */
  lemma ResolvedSlotOrDetached(view: DocView, target: Item)
    requires IsReference(target) && Resolve(view, target).Success?
    ensures var res := Resolve(view, target).value;
      (res.slot.Some? ==> res.item.ItemNode? && SlotNode(view.schemas, res.slot.value) == Some(res.item.node))
      && (res.slot.None? ==> !Mutable(res.item))
  {
    if Resolve(view, target).value.slot.Some? {
      ResolvedSlotHoldsNode(view, target);
    } else {
      var ref := target.node.ref;
      var c := Walk(view, AtRoot, PathParts(ref), ref).value;
      assert Resolve(view, target) == ItemOf(c);
    }
  }

  /**
   * One iteration of the loop: the resolved target an extractor was offered
   * (`$beforeExtraction`), whether it ran, and `$realTarget` afterwards.
   */
  datatype StepRecord = StepRecord(resolved: Item, ran: bool, after: Item)

  predicate Replaced(s: StepRecord)
  {
    ItemClass(s.resolved) != ItemClass(s.after)
  }

  /** The last `$target = $realTarget` of the loop: the after-item of the last step that changed the class. */
  function LastReplacement(trace: seq<StepRecord>): (r: Option<Item>)
    decreases |trace|
  {
    if trace == [] then None
    else if Replaced(trace[|trace| - 1]) then Some(trace[|trace| - 1].after)
    else LastReplacement(trace[..|trace| - 1])
  }

  /**
   * The generator returns the target handed in unless some step changed the
   * class of the current target; then it returns what the last such step
   * produced.
   */
  lemma {:induction false} LastReplacementIsLastChange(trace: seq<StepRecord>)
    ensures LastReplacement(trace).None? <==> forall i :: 0 <= i < |trace| ==> !Replaced(trace[i])
    ensures LastReplacement(trace).Some? ==>
      (exists i :: 0 <= i < |trace| && Replaced(trace[i]) && LastReplacement(trace) == Some(trace[i].after)
         && forall j :: i < j < |trace| ==> !Replaced(trace[j]))
    decreases |trace|
  {
    if trace != [] {
      var init := trace[..|trace| - 1];
      LastReplacementIsLastChange(init);
      assert forall i :: 0 <= i < |init| ==> init[i] == trace[i];
      if !Replaced(trace[|trace| - 1]) && LastReplacement(init).Some? {
        var i :| 0 <= i < |init| && Replaced(init[i]) && LastReplacement(init) == Some(init[i].after)
          && forall j :: i < j < |init| ==> !Replaced(init[j]);
        assert Replaced(trace[i]);
      }
    }
  }

  predicate NoneRan(trace: seq<StepRecord>)
  {
    forall i :: 0 <= i < |trace| ==> !trace[i].ran
  }

  /** A step whose extractor did not run keeps the target, so the class never changes without an extractor. */
  lemma {:induction false} IdleStepsKeepTarget(trace: seq<StepRecord>)
    requires forall i :: 0 <= i < |trace| ==> !trace[i].ran ==> trace[i].after == trace[i].resolved
    requires NoneRan(trace)
    ensures LastReplacement(trace).None?
    decreases |trace|
  {
    if trace != [] {
      IdleStepsKeepTarget(trace[..|trace| - 1]);
    }
  }

  /** The last replacement after one more step. */
  lemma LastReplacementSnoc(trace: seq<StepRecord>, rec: StepRecord)
    ensures LastReplacement(trace + [rec]) == if Replaced(rec) then Some(rec.after) else LastReplacement(trace)
    ensures NoneRan(trace + [rec]) <==> NoneRan(trace) && !rec.ran
  {
    assert (trace + [rec])[..|trace|] == trace;
    if NoneRan(trace) && !rec.ran {
      forall i | 0 <= i < |trace| + 1 ensures !(trace + [rec])[i].ran {
        if i < |trace| {
          assert (trace + [rec])[i] == trace[i];
        }
      }
    }
    if NoneRan(trace + [rec]) {
      forall i | 0 <= i < |trace| ensures !trace[i].ran {
        assert (trace + [rec])[i] == trace[i];
      }
    }
  }

  /**
   * The loop's record of which extractors ran: each ran exactly when it was
   * applicable to the target it was offered, and one that did not run left
   * that target as it was.
   */
  ghost predicate TraceFits(es: seq<Extractor>, source: Source, trace: seq<StepRecord>, params: map<string, Value>)
  {
    |trace| == |es|
    && (forall i :: 0 <= i < |trace| ==> (trace[i].ran <==> Applicable(es[i], source, trace[i].resolved, params) == Success(true)))
    && (forall i :: 0 <= i < |trace| ==> !trace[i].ran ==> trace[i].after == trace[i].resolved)
  }

  lemma TraceFitsSnoc(es: seq<Extractor>, source: Source, trace: seq<StepRecord>, params: map<string, Value>, e: Extractor, rec: StepRecord)
    requires TraceFits(es, source, trace, params)
    requires rec.ran <==> Applicable(e, source, rec.resolved, params) == Success(true)
    requires !rec.ran ==> rec.after == rec.resolved
    ensures TraceFits(es + [e], source, trace + [rec], params)
  {
    var es', trace' := es + [e], trace + [rec];
    forall i | 0 <= i < |trace'|
      ensures (trace'[i].ran <==> Applicable(es'[i], source, trace'[i].resolved, params) == Success(true))
      ensures !trace'[i].ran ==> trace'[i].after == trace'[i].resolved
    {
      if i < |trace| {
        assert trace'[i] == trace[i] && es'[i] == es[i];
      }
    }
  }

  /** The outcome of an extract: the final value of `$target`, and the final state of the object handed in. */
  datatype Extracted = Extracted(result: Item, original: Item)

  /** What one extractor's `extract` leaves: the target's new state and, when it set `$target`, the new value. */
  datatype Outcome = Outcome(mutated: Item, replacement: Option<Item>)

  /** Where the loop's current target lives. */
  datatype Where = AtTarget | AtSlot(slot: Slot) | Detached

/** The loop's current target, where it lives, and the final state so far of the object handed in. */
  datatype LoopState = LoopState(realTarget: Item, realAt: Where, original: Item)

  /** A target said to live in the registry is the node of its slot; a detached one is not written. */
  predicate StateSound(st: LoopState, schemas: map<string, Node>)
  {
    (st.realAt.AtTarget? ==> st.realTarget == st.original)
    && (st.realAt.AtSlot? ==> st.realTarget.ItemNode? && SlotNode(schemas, st.realAt.slot) == Some(st.realTarget.node))
    && (st.realAt.Detached? ==> !Mutable(st.realTarget))
  }

    function SlotOf(w: Where): Option<Slot>
  {
    if w.AtSlot? then Some(w.slot) else None
  }

  /** The node at a slot read back after a nested extraction, which may have written to it. */
  function Reload(schemas: map<string, Node>, at: Option<Slot>, current: Node): (r: Result<Node>)
    ensures at.None? ==> r == Success(current)
    ensures at.Some? && r.Success? ==> SlotNode(schemas, at.value) == Some(r.value) && r.value.Schema?
  {
    if at.None? then Success(current)
    else
      var n := SlotNode(schemas, at.value);
      if n.Some? && n.value.Schema? then Success(n.value)
      else Failure(NotModelled("a registry node replaced while an extraction was writing to it"))
  }

  /** Writes a node back to its slot, when it has one. */
  method Store(components: Components, at: Option<Slot>, n: Node)
    requires at.Some? ==> SlotNode(components.schemas, at.value).Some?
    modifies components
    ensures at.Some? ==> components.schemas == SlotPut(old(components.schemas), at.value, n)
    ensures at.Some? ==> SlotNode(components.schemas, at.value) == Some(n)
    ensures at.None? ==> components.schemas == old(components.schemas)
  {
    if at.Some? {
      components.schemas := SlotPut(components.schemas, at.value, n);
    }
  }

  /** The slot of a node's `items`. */
  function ItemsSlot(s: Slot): Slot
  {
    Slot(s.definition, s.path + [IntoItems])
  }

  lemma ItemsSlotHolds(schemas: map<string, Node>, s: Slot, n: Node)
    requires SlotNode(schemas, s) == Some(n) && n.Schema? && n.items.Some?
    ensures SlotNode(schemas, ItemsSlot(s)) == Some(n.items.value)
  {
    NodeAtSnoc(schemas[s.definition], s.path, IntoItems);
    assert [IntoItems][1..] == [];
  }

  lemma RootSlotHolds(schemas: map<string, Node>, d: string)
    requires d in schemas
    ensures SlotNode(schemas, Slot(d, [])) == Some(schemas[d])
  {
  }

  // ---------------------------------------------------------------------
  // The generator

  // ---------------------------------------------------------------------
  // What the JMS and doc-block extractors leave on their targets

  /**
   * The properties the JMS extractor stores, in metadata order: those no
   * exclusion strategy skips and that are not declared on a foreign
   * discriminator base class.
   */
  function KeptProperties(props: seq<(string, JmsRules.JmsProperty)>, strategies: seq<seq<string>>,
                          excluded: JmsRules.GroupsExclusion, meta: JmsRules.JmsClassMetadata, className: string)
    : seq<(string, JmsRules.JmsProperty)>
    decreases |props|
  {
    if props == [] then []
    else
      var prior := KeptProperties(props[..|props| - 1], strategies, excluded, meta, className);
      var last := props[|props| - 1];
      if JmsRules.SkippedBy(strategies, last.1, excluded) || JmsRules.InheritedFromBase(meta, className, last.1) then prior
      else prior + [last]
  }

  /** The schema stored for a property carries the metadata's groups and read-only flag, and the type its plan fixes. */
  predicate PropertySchemaShape(item: JmsRules.JmsProperty, ps: Node)
  {
    ps.Schema? && ps.serializerGroups == item.groups && (item.readOnly ==> ps.readOnly)
    && (JmsRules.PlanFor(item).StdClassPlan? ==> ps.typeName == Some("stdClass"))
    && (JmsRules.PlanFor(item).ArrayPlan? ==> ps.typeName == Some("array") && ps.items.Some?)
  }

  /** One stored (name, schema) pair per kept property, under the name the naming strategy gives it. */
  predicate PropertiesStored(kept: seq<(string, JmsRules.JmsProperty)>, naming: JmsRules.NamingStrategy, stored: seq<(string, Node)>)
  {
    |stored| == |kept|
    && forall j :: 0 <= j < |kept| ==> stored[j].0 == naming(kept[j].1) && PropertySchemaShape(kept[j].1, stored[j].1)
  }

  /** The class schema before its properties: a child of a discriminator map records its parent's alias. */
  function JmsBase(e: Extractor, className: string, n: Node, aliases: map<string, string>): (r: Node)
    requires e.JmsExtraction? && className in e.factory && n.Schema?
    ensures r.Schema? && r.properties == n.properties
  {
    if JmsRules.HasForeignBase(e.factory[className], className) && e.parentOf(className).Some?
    then n.(parentAlias := Some(TypeSchema.AliasFor(aliases, e.parentOf(className).value)))
    else n
  }

  lemma KeptStep(props: seq<(string, JmsRules.JmsProperty)>, i: nat, strategies: seq<seq<string>>,
                 excluded: JmsRules.GroupsExclusion, meta: JmsRules.JmsClassMetadata, className: string)
    requires i < |props|
    ensures KeptProperties(props[..i + 1], strategies, excluded, meta, className)
      == if JmsRules.SkippedBy(strategies, props[i].1, excluded) || JmsRules.InheritedFromBase(meta, className, props[i].1)
         then KeptProperties(props[..i], strategies, excluded, meta, className)
         else KeptProperties(props[..i], strategies, excluded, meta, className) + [props[i]]
  {
    assert props[..i + 1][..i] == props[..i];
  }

  lemma StoredStep(kept: seq<(string, JmsRules.JmsProperty)>, naming: JmsRules.NamingStrategy, stored: seq<(string, Node)>,
                   p: (string, JmsRules.JmsProperty), ps: Node)
    requires PropertiesStored(kept, naming, stored) && PropertySchemaShape(p.1, ps)
    ensures PropertiesStored(kept + [p], naming, stored + [(naming(p.1), ps)])
  {
  }

  lemma StoreAllSnoc(base: Node, stored: seq<(string, Node)>, x: (string, Node))
    requires base.Schema?
    ensures JmsRules.StoreAll(base, stored + [x]) == JmsRules.StoreProperty(JmsRules.StoreAll(base, stored), x.0, x.1)
  {
    assert (stored + [x])[..|stored|] == stored;
  }

  /** A response made for a request: its description, a schema object, no content. */
  predicate ResponseFor(request: PhpDocRules.ResponseRequest, response: Response)
  {
    response.description == Some(request.description) && response.schema.Some? && response.schema.value.Schema?
    && response.content.None?
  }

  /** One response per request, each written under the same status code in turn. */
  ghost predicate ResponsesWritten(before: seq<(Key, Response)>, after: seq<(Key, Response)>, code: int,
                                   requests: seq<PhpDocRules.ResponseRequest>)
  {
    exists written: seq<Response> ::
      after == PhpDocRules.PutAll(before, code, written)
      && |written| == |requests| && forall j :: 0 <= j < |requests| ==> ResponseFor(requests[j], written[j])
  }

  /** The operation's parameters keep their number, classes and names. */
  predicate ParametersKept(before: seq<Parameter>, after: seq<Parameter>)
  {
    |after| == |before|
    && forall j :: 0 <= j < |before| ==> after[j].className == before[j].className && after[j].name == before[j].name
  }

  lemma ParameterUpdateKept(params: seq<Parameter>, i: nat, p: Parameter)
    requires i < |params| && p.className == params[i].className && p.name == params[i].name
    ensures ParametersKept(params, params[i := p])
  {
  }

  /** What the doc-block extractor leaves on an operation. */
  ghost predicate OperationDocumented(e: Extractor, className: string, methodName: string, before: Operation, after: Operation)
    requires e.PhpDocExtraction?
    reads e.p
  {
    var doc := e.docs(className, methodName);
    after.summary == PhpDocRules.SummaryRule(before, doc)
    && after.description == PhpDocRules.DescriptionRule(before, doc)
    && after.deprecated == PhpDocRules.DeprecatedRule(before, doc)
    && after.requestBody == before.requestBody && after.customProperties == before.customProperties
    && ParametersKept(before.parameters, after.parameters)
    && ResponsesWritten(before.responses, after.responses, e.p.StatusCode(className, methodName),
         PhpDocRules.ResponsePlan(e.p.resolver, e.declaringClass(className, methodName), e.p.excludedReturnTypes, doc.returnTags))
  }


  /** The doc-block extractor's outcome, from the status code and plan it used. */
  lemma DocumentedBy(e: Extractor, className: string, methodName: string, before: Operation, after: Operation,
                     status: int, requests: seq<PhpDocRules.ResponseRequest>)
    requires e.PhpDocExtraction?
    requires status == e.p.StatusCode(className, methodName)
    requires requests == PhpDocRules.ResponsePlan(e.p.resolver, e.declaringClass(className, methodName), e.p.excludedReturnTypes,
                                                  e.docs(className, methodName).returnTags)
    requires after == before.(summary := PhpDocRules.SummaryRule(before, e.docs(className, methodName)),
                              description := PhpDocRules.DescriptionRule(before, e.docs(className, methodName)),
                              deprecated := PhpDocRules.DeprecatedRule(before, e.docs(className, methodName)),
                              responses := after.responses, parameters := after.parameters)
    requires ResponsesWritten(before.responses, after.responses, status, requests)
    requires ParametersKept(before.parameters, after.parameters)
    ensures OperationDocumented(e, className, methodName, before, after)
  {
  }

  class OpenApiGenerator {
    var extractors: ExtractorTable.Table<Extractor>
    var sortedExtractors: Option<seq<Extractor>>
    ghost var Repr: set<TypeSchema.TypeSchemaExtractor>

    ghost predicate Valid()
      reads this
    {
      var repr := Repr;
      ExtractorTable.AllIn(extractors, e => Owned(e, repr))
      && (sortedExtractors.Some? ==> forall k :: 0 <= k < |sortedExtractors.value| ==> Owned(sortedExtractors.value[k], repr))
    }

    /** The constructor registers the JSON-document extractor at position -1 of section "swagger". */
    constructor (decode: string -> Option<Value>)
      ensures Valid()
      ensures extractors == ExtractorTable.Register([], JsonSchemaExtraction(decode), -1, "swagger")
      ensures sortedExtractors.None? && Repr == {}
    {
      var repr: set<TypeSchema.TypeSchemaExtractor> := {};
      ExtractorTable.RegisterAllIn([], JsonSchemaExtraction(decode), -1, "swagger", e => Owned(e, repr));
      extractors := ExtractorTable.Register([], JsonSchemaExtraction(decode), -1, "swagger");
      sortedExtractors := None;
      Repr := repr;
    }

    /**
     * `registerExtractor`: files the extractor under its section and
     * position. The sorted list, once computed, is kept as it is.
     */
    method RegisterExtractor(e: Extractor, position: int, section: string)
      requires Valid()
      modifies this
      ensures Valid()
      ensures extractors == ExtractorTable.Register(old(extractors), e, position, section)
      ensures sortedExtractors == old(sortedExtractors)
      ensures Repr == old(Repr) + if e.TypeSchemaExtraction? then {e.ts} else {}
    {
      var repr := Repr + if e.TypeSchemaExtraction? then {e.ts} else {};
      var oldRepr := Repr;
      ExtractorTable.AllInWeaken(extractors, x => Owned(x, oldRepr), x => Owned(x, repr));
      ExtractorTable.RegisterAllIn(extractors, e, position, section, x => Owned(x, repr));
      extractors := ExtractorTable.Register(extractors, e, position, section);
      Repr := repr;
    }

    /**
     * `getSortedExtractors`, with the sections concatenated in the order they
     * were first used (the code as written keeps only the last one; see
     * `ExtractorTable.SortedAsWritten`). The list is computed once.
     */
    method GetSortedExtractors() returns (r: seq<Extractor>)
      requires Valid()
      modifies this
      ensures Valid() && extractors == old(extractors) && Repr == old(Repr)
      ensures old(sortedExtractors).Some? ==> r == old(sortedExtractors).value
      ensures old(sortedExtractors).None? ==> r == ExtractorTable.Sorted(extractors)
      ensures sortedExtractors == Some(r)
    {
      if sortedExtractors.None? {
        var acc: seq<Extractor> := [];
        var i := 0;
        while i < |extractors|
          invariant 0 <= i <= |extractors|
          invariant acc == ExtractorTable.Sorted(extractors[..i])
        {
          assert extractors[..i + 1][..i] == extractors[..i];
          acc := acc + ExtractorTable.SectionList(extractors[i]);
          i := i + 1;
        }
        assert extractors[..|extractors|] == extractors;
        var repr := Repr;
        ExtractorTable.SortedAllIn(extractors, e => Owned(e, repr));
        sortedExtractors := Some(acc);
      }
      r := sortedExtractors.value;
    }

    /**
     * `extract($source, $target, $extractionContext)`: every extractor, in
     * the sorted order, is offered the current target after reference
     * resolution and runs when it can extract; when a run changes the class
     * of the current target (a Schema that became a Reference), that becomes
     * the value returned. `targetAt` says where the object handed in lives
     * in the registry, if it does; `original` is its final state.
     */
    method Extract(source: Source, target: Item, targetAt: Option<Slot>, context: ExtractionContext<OpenApiGenerator>, fuel: nat)
      returns (r: Result<Extracted>, ghost trace: seq<StepRecord>)
      requires Valid() && context.swagger == this
      requires targetAt.Some? ==> IsSchemaTarget(target) && SlotNode(context.rootSchema.components.schemas, targetAt.value) == Some(target.node)
      modifies this, Repr, context.rootSchema.components
      ensures Valid() && extractors == old(extractors) && Repr == old(Repr)
      ensures old(sortedExtractors).Some? ==> sortedExtractors == old(sortedExtractors)
      ensures r.Success? ==> sortedExtractors.Some? && |trace| == |sortedExtractors.value|
      ensures r.Success? ==> forall i :: 0 <= i < |trace| ==>
        (trace[i].ran <==> Applicable(sortedExtractors.value[i], source, trace[i].resolved, context.parameters) == Success(true))
      ensures r.Success? ==> forall i :: 0 <= i < |trace| ==> !trace[i].ran ==> trace[i].after == trace[i].resolved
      ensures r.Success? ==> r.value.result == LastReplacement(trace).GetOr(r.value.original)
      ensures r.Success? ==> ItemClass(r.value.original) == ItemClass(target)
      ensures r.Success? ==> r.value.result == r.value.original || IsReference(r.value.result)
      ensures r.Success? && targetAt.Some? ==>
        SlotNode(context.rootSchema.components.schemas, targetAt.value) == Some(r.value.original.node)
      ensures r.Success? && NoneRan(trace) ==>
        r.value.result == target && r.value.original == target
        && context.rootSchema.components.schemas == old(context.rootSchema.components.schemas)
      decreases fuel, 12
    {
      trace := [];
      if fuel == 0 {
        return Failure(FuelExhausted), trace;
      }
      var sorted := GetSortedExtractors();
      var components := context.rootSchema.components;
      var loop, steps := RunExtractors(sorted, source, target, targetAt, context, fuel);
      trace := steps;
      if loop.Failure? {
        return Failure(loop.error), trace;
      }
      var st, result, changed := loop.value.0, loop.value.1, loop.value.2;
      if NoneRan(trace) {
        IdleStepsKeepTarget(trace);
      }
      var original := st.original;
      if targetAt.Some? {
        var n := Reload(components.schemas, targetAt, target.node);
        if n.Failure? {
          return Failure(n.error), trace;
        }
        original := ItemNode(n.value);
      }
      if !changed {
        result := original;
      }
      r := Success(Extracted(result, original));
    }

    /**
     * The loop of `extract` over the sorted extractors. Gives the loop's
     * final state, the last replacement of `$target` and whether there was
     * one.
     */
    method RunExtractors(sorted: seq<Extractor>, source: Source, target: Item, targetAt: Option<Slot>,
                         context: ExtractionContext<OpenApiGenerator>, fuel: nat)
      returns (r: Result<(LoopState, Item, bool)>, ghost trace: seq<StepRecord>)
      requires fuel >= 1 && Valid() && context.swagger == this && sortedExtractors == Some(sorted)
      requires targetAt.Some? ==> IsSchemaTarget(target) && SlotNode(context.rootSchema.components.schemas, targetAt.value) == Some(target.node)
      modifies this, Repr, context.rootSchema.components
      ensures Valid() && extractors == old(extractors) && Repr == old(Repr) && sortedExtractors == Some(sorted)
      ensures r.Success? ==> StateSound(r.value.0, context.rootSchema.components.schemas)
      ensures r.Success? ==> TraceFits(sorted, source, trace, context.parameters)
      ensures r.Success? ==> (r.value.2 <==> LastReplacement(trace).Some?)
      ensures r.Success? && r.value.2 ==> r.value.1 == LastReplacement(trace).value && IsReference(r.value.1)
      ensures r.Success? && targetAt.Some? ==> !r.value.0.realAt.AtTarget?
      ensures r.Success? ==> ItemClass(r.value.0.original) == ItemClass(target)
      ensures r.Success? && targetAt.None? && NoneRan(trace) ==> r.value.0.original == target
      ensures r.Success? && NoneRan(trace) ==> context.rootSchema.components.schemas == old(context.rootSchema.components.schemas)
      decreases fuel, 11
    {
      trace := [];
      var components := context.rootSchema.components;
      var st := LoopState(target, if targetAt.Some? then AtSlot(targetAt.value) else AtTarget, target);
      var result := target;
      var changed := false;
      var k := 0;
      while k < |sorted|
        invariant 0 <= k <= |sorted| && |trace| == k
        invariant Valid() && extractors == old(extractors) && Repr == old(Repr)
        invariant sortedExtractors == Some(sorted)
        invariant StateSound(st, components.schemas)
        invariant TraceFits(sorted[..k], source, trace, context.parameters)
        invariant changed <==> LastReplacement(trace).Some?
        invariant changed ==> result == LastReplacement(trace).value && IsReference(result)
        invariant targetAt.Some? ==> !st.realAt.AtTarget?
        invariant ItemClass(st.original) == ItemClass(target)
        invariant targetAt.None? && NoneRan(trace) ==> st.original == target
        invariant NoneRan(trace) ==> components.schemas == old(components.schemas)
      {
        var step := ExtractStep(sorted[k], source, st, context, fuel);
        if step.Failure? {
          return Failure(step.error), trace;
        }
        var rec := step.value.1;
        st := step.value.0;
        if Replaced(rec) {
          result := rec.after;
          changed := true;
        }
        TraceFitsSnoc(sorted[..k], source, trace, context.parameters, sorted[k], rec);
        LastReplacementSnoc(trace, rec);
        assert sorted[..k + 1] == sorted[..k] + [sorted[k]];
        trace := trace + [rec];
        k := k + 1;
      }
      assert sorted[..k] == sorted;
      return Success((st, result, changed)), trace;
    }

    /**
     * One iteration of the loop: resolve the current target, offer it to the
     * extractor, run it when it accepts, and take what it leaves as the new
     * current target.
     */
    method ExtractStep(e: Extractor, source: Source, st: LoopState, context: ExtractionContext<OpenApiGenerator>, fuel: nat)
      returns (r: Result<(LoopState, StepRecord)>)
      requires fuel >= 1 && Valid() && context.swagger == this && Owned(e, Repr)
      requires StateSound(st, context.rootSchema.components.schemas)
      modifies this, Repr, context.rootSchema.components
      ensures Valid() && extractors == old(extractors) && Repr == old(Repr)
      ensures old(sortedExtractors).Some? ==> sortedExtractors == old(sortedExtractors)
      ensures r.Success? ==> StateSound(r.value.0, context.rootSchema.components.schemas)
      ensures r.Success? ==> r.value.1.after == r.value.0.realTarget
      ensures r.Success? ==> (r.value.1.ran <==> Applicable(e, source, r.value.1.resolved, context.parameters) == Success(true))
      ensures r.Success? && !r.value.1.ran ==>
        r.value.1.after == r.value.1.resolved && r.value.0.original == st.original
        && context.rootSchema.components.schemas == old(context.rootSchema.components.schemas)
      ensures r.Success? ==> ItemClass(r.value.0.original) == ItemClass(st.original)
      ensures r.Success? && Replaced(r.value.1) ==> IsReference(r.value.1.after)
      ensures r.Success? && r.value.0.realAt.AtTarget? ==> st.realAt.AtTarget?
      decreases fuel, 10
    {
      var resolved := ResolveStep(st, context.rootSchema);
      if resolved.Failure? {
        return Failure(resolved.error);
      }
      r := OfferStep(e, source, LoopState(resolved.value.0, resolved.value.1, st.original), context, fuel);
    }

    /**
     * The rest of an iteration, on the resolved target: the extractor runs
     * when it can extract, and what it leaves becomes the current target.
     */
    method OfferStep(e: Extractor, source: Source, cur: LoopState, context: ExtractionContext<OpenApiGenerator>, fuel: nat)
      returns (r: Result<(LoopState, StepRecord)>)
      requires fuel >= 1 && Valid() && context.swagger == this && Owned(e, Repr)
      requires StateSound(cur, context.rootSchema.components.schemas)
      modifies this, Repr, context.rootSchema.components
      ensures Valid() && extractors == old(extractors) && Repr == old(Repr)
      ensures old(sortedExtractors).Some? ==> sortedExtractors == old(sortedExtractors)
      ensures r.Success? ==> StateSound(r.value.0, context.rootSchema.components.schemas)
      ensures r.Success? ==> r.value.1.resolved == cur.realTarget && r.value.1.after == r.value.0.realTarget
      ensures r.Success? ==> (r.value.1.ran <==> Applicable(e, source, cur.realTarget, context.parameters) == Success(true))
      ensures r.Success? && !r.value.1.ran ==>
        r.value.1.after == r.value.1.resolved && r.value.0.original == cur.original
        && context.rootSchema.components.schemas == old(context.rootSchema.components.schemas)
      ensures r.Success? ==> ItemClass(r.value.0.original) == ItemClass(cur.original)
      ensures r.Success? && Replaced(r.value.1) ==> IsReference(r.value.1.after)
      ensures r.Success? && r.value.0.realAt.AtTarget? ==> cur.realAt.AtTarget?
      decreases fuel, 9
    {
      var before := cur.realTarget;
      var at := cur.realAt;
      var applicable := Applicable(e, source, before, context.parameters);
      if applicable.Failure? {
        return Failure(applicable.error);
      }
      var after := before;
      var original := cur.original;
      if applicable.value {
        var out := RunExtractor(e, source, before, SlotOf(at), context, fuel);
        if out.Failure? {
          return Failure(out.error);
        }
        if at.AtTarget? {
          original := out.value.mutated;
        }
        if out.value.replacement.Some? {
          after := out.value.replacement.value;
          at := Detached;
        } else {
          after := out.value.mutated;
        }
      }
      if !IsObject(before) || !IsObject(after) {
        return NotAnObject();
      }
      return Success((LoopState(after, at, original), StepRecord(before, applicable.value, after)));
    }

    /**
     * `$realTarget = static::resolveReference($realTarget, $rootSchema)`: a
     * Reference moves the loop onto the node it names (and that node's
     * slot), or onto something the extractors do not write.
     */
    method ResolveStep(st: LoopState, root: OpenApi) returns (r: Result<(Item, Where)>)
      requires StateSound(st, root.components.schemas)
      ensures r.Success? <==> Resolve(ViewOf(root), st.realTarget).Success?
      ensures r.Success? ==> r.value.0 == Resolve(ViewOf(root), st.realTarget).value.item
      ensures r.Success? ==> StateSound(LoopState(r.value.0, r.value.1, st.original), root.components.schemas)
      ensures r.Success? && r.value.1.AtTarget? ==> st.realAt.AtTarget?
    {
      var resolved := ResolveReference(st.realTarget, root);
      if resolved.Failure? {
        return Failure(resolved.error);
      }
      var at := st.realAt;
      if IsReference(st.realTarget) {
        ResolvedSlotOrDetached(ViewOf(root), st.realTarget);
        at := if resolved.value.slot.Some? then AtSlot(resolved.value.slot.value) else Detached;
      } else {
        ResolveNonReference(ViewOf(root), st.realTarget);
      }
      return Success((resolved.value.item, at));
    }

    /** `$extractor->extract($source, $realTarget, $extractionContext)`. */
    method RunExtractor(e: Extractor, source: Source, target: Item, at: Option<Slot>, context: ExtractionContext<OpenApiGenerator>, fuel: nat)
      returns (r: Result<Outcome>)
      requires fuel >= 1 && Valid() && context.swagger == this && Owned(e, Repr)
      requires at.Some? ==> target.ItemNode? && SlotNode(context.rootSchema.components.schemas, at.value) == Some(target.node)
      modifies this, Repr, context.rootSchema.components
      ensures Valid() && extractors == old(extractors) && Repr == old(Repr)
      ensures old(sortedExtractors).Some? ==> sortedExtractors == old(sortedExtractors)
      ensures r.Success? ==> ItemClass(r.value.mutated) == ItemClass(target)
      ensures r.Success? ==> Mutable(target) || (r.value.mutated == target && r.value.replacement.None?)
      ensures r.Success? && at.Some? ==>
        r.value.mutated.ItemNode? && SlotNode(context.rootSchema.components.schemas, at.value) == Some(r.value.mutated.node)
      ensures r.Success? && r.value.replacement.Some? ==> IsReference(r.value.replacement.value)
      decreases fuel, 8
    {
      match e
      case TypeSchemaExtraction(ts, classes) =>
        r := ExtractTypeSchema(ts, classes, source, target, at, context, fuel);
      case JmsExtraction(factory, naming, excluded, ts, parentOf) =>
        r := ExtractJms(e, source, target, at, context, fuel);
      case ConstraintExtraction(rules, metadata, effect) =>
        r := ExtractConstraints(rules, metadata, effect, source, target, at, context);
      case PhpDocExtraction(p, docs, declaringClass) =>
        r := ExtractPhpDoc(e, source, target, context, fuel);
      case JsonSchemaExtraction(decode) =>
        var can := JsonApplicable(decode, source, target);
        if can.Failure? {
          return Failure(can.error);
        }
        if !can.value {
          return Failure(ExtractionImpossible(""));
        }
        r := Failure(NotModelled("deserialization of the JSON document"));
    }

    /**
     * A nested `extract` call made by an extractor, with one unit of fuel
     * less; what the callers rely on is the class of the object handed in, a
     * result that is that object or a Reference, and the registry slot it
     * sits in.
     */
    method ExtractNested(source: Source, target: Item, targetAt: Option<Slot>, context: ExtractionContext<OpenApiGenerator>, fuel: nat)
      returns (r: Result<Extracted>)
      requires fuel >= 1 && Valid() && context.swagger == this
      requires targetAt.Some? ==> IsSchemaTarget(target) && SlotNode(context.rootSchema.components.schemas, targetAt.value) == Some(target.node)
      modifies this, Repr, context.rootSchema.components
      ensures Valid() && extractors == old(extractors) && Repr == old(Repr)
      ensures old(sortedExtractors).Some? ==> sortedExtractors == old(sortedExtractors)
      ensures r.Success? ==> ItemClass(r.value.original) == ItemClass(target)
      ensures r.Success? ==> r.value.result == r.value.original || IsReference(r.value.result)
      ensures r.Success? && targetAt.Some? ==>
        SlotNode(context.rootSchema.components.schemas, targetAt.value) == Some(r.value.original.node)
      decreases fuel, 0
    {
      var x, trace := Extract(source, target, targetAt, context, fuel - 1);
      r := x;
    }

    /**
     * Extracts into a `new Schema()` that nothing else holds and returns that
     * object's final state (JMS's `extractTypeSchema`, and the schemas
     * PhpDoc hands over by variable): a Reference the generator returns in
     * its place is dropped.
     */
    method ExtractTemporary(source: Source, context: ExtractionContext<OpenApiGenerator>, fuel: nat)
      returns (r: Result<Node>)
      requires fuel >= 1 && Valid() && context.swagger == this
      modifies this, Repr, context.rootSchema.components
      ensures Valid() && extractors == old(extractors) && Repr == old(Repr)
      ensures old(sortedExtractors).Some? ==> sortedExtractors == old(sortedExtractors)
      ensures r.Success? ==> r.value.Schema?
      decreases fuel, 0
    {
      var x, trace := Extract(source, ItemNode(EmptySchema), None, context, fuel - 1);
      if x.Failure? {
        return Failure(x.error);
      }
      return Success(x.value.original.node);
    }

    /**
     * TypeSchemaExtractor's `extract`: the type is written on the target; an
     * array gets `items`, extracted from the item type; a class gets its
     * definition registered (and extracted again whenever its merged
     * serializer groups are new) and the target is replaced by a Reference
     * to it; any other type gets its format.
     */
    method ExtractTypeSchema(ts: TypeSchema.TypeSchemaExtractor, classes: set<string>, source: Source, target: Item,
                             at: Option<Slot>, context: ExtractionContext<OpenApiGenerator>, fuel: nat)
      returns (r: Result<Outcome>)
      requires fuel >= 1 && Valid() && context.swagger == this && ts in Repr
      requires at.Some? ==> target.ItemNode? && SlotNode(context.rootSchema.components.schemas, at.value) == Some(target.node)
      modifies this, Repr, context.rootSchema.components
      ensures Valid() && extractors == old(extractors) && Repr == old(Repr)
      ensures old(sortedExtractors).Some? ==> sortedExtractors == old(sortedExtractors)
      ensures r.Success? ==> IsSchemaTarget(target) && source.SourceValue? && TypeSchema.GetPrimitiveType(source.v, classes).Some?
      ensures r.Success? ==> IsSchemaTarget(r.value.mutated)
      ensures r.Success? && at.Some? ==> SlotNode(context.rootSchema.components.schemas, at.value) == Some(r.value.mutated.node)
      ensures r.Success? ==> var pt := TypeSchema.GetPrimitiveType(source.v, classes).value;
        (r.value.replacement.Some? <==> pt.typeName == "object")
        && (r.value.replacement.Some? ==>
              pt.className.Some?
              && r.value.replacement.value
                 == ItemNode(Reference(SchemaReference(TypeSchema.DefinitionName(old(ts.GetAliasFor(pt.className.value)))))))
        && (pt.typeName != "array" && pt.typeName != "object" ==>
              r.value.mutated.node == target.node.(typeName := Some(pt.typeName), format := if pt.format.Some? then pt.format else target.node.format))
        && (pt.typeName == "array" && at.None? ==>
              r.value.mutated.node.typeName == Some("array") && r.value.mutated.node.items.Some?
              && (pt.subType.None? ==> r.value.mutated.node.items == Some(EmptySchema)))
        && (pt.typeName == "object" && at.None? ==> r.value.mutated.node == target.node.(typeName := Some("object")))
      decreases fuel, 6
    {
      if !(IsSchemaTarget(target) && source.SourceValue? && TypeSchema.GetPrimitiveType(source.v, classes).Some?) {
        return Failure(ExtractionImpossible(""));
      }
      var pt := TypeSchema.GetPrimitiveType(source.v, classes).value;
      var components := context.rootSchema.components;
      var node := target.node.(typeName := Some(pt.typeName));
      Store(components, at, node);
      if pt.typeName == "array" {
        var arr := ExtractArrayType(pt.subType, node, at, context, fuel);
        if arr.Failure? {
          return Failure(arr.error);
        }
        return Success(Outcome(ItemNode(arr.value), None));
      }
      if pt.typeName == "object" {
        if pt.className.None? {
          return Failure(ReflectionFailure("Class \"\" does not exist"));
        }
        var definition := TypeSchema.DefinitionName(ts.GetAliasFor(pt.className.value));
        var model := ExtractClassType(ts, pt.className.value, node, at, context, fuel);
        if model.Failure? {
          return Failure(model.error);
        }
        return Success(Outcome(ItemNode(model.value), Some(ItemNode(Reference(SchemaReference(definition))))));
      }
      if pt.format.Some? {
        node := node.(format := pt.format);
        Store(components, at, node);
      }
      return Success(Outcome(ItemNode(node), None));
    }

    /**
     * The array branch: `items` becomes a new Schema and, when the type names
     * its item type, takes what the generator returns for that type.
     */
    method ExtractArrayType(subType: Option<string>, node: Node, at: Option<Slot>,
                            context: ExtractionContext<OpenApiGenerator>, fuel: nat)
      returns (r: Result<Node>)
      requires fuel >= 1 && Valid() && context.swagger == this && node.Schema?
      requires at.Some? ==> SlotNode(context.rootSchema.components.schemas, at.value) == Some(node)
      modifies this, Repr, context.rootSchema.components
      ensures Valid() && extractors == old(extractors) && Repr == old(Repr)
      ensures old(sortedExtractors).Some? ==> sortedExtractors == old(sortedExtractors)
      ensures r.Success? ==> r.value.Schema?
      ensures r.Success? && at.Some? ==> SlotNode(context.rootSchema.components.schemas, at.value) == Some(r.value)
      ensures r.Success? && at.None? ==>
        r.value.typeName == node.typeName && r.value.items.Some?
        && (subType.None? ==> r.value == node.(items := Some(EmptySchema)))
      decreases fuel, 4
    {
      var components := context.rootSchema.components;
      var n := node.(items := Some(EmptySchema));
      Store(components, at, n);
      if subType.Some? {
        var itemsAt := if at.Some? then Some(ItemsSlot(at.value)) else None;
        if at.Some? {
          ItemsSlotHolds(components.schemas, at.value, n);
        }
        var nested := ExtractNested(SourceValue(VStr(subType.value)), ItemNode(EmptySchema), itemsAt, context, fuel);
        if nested.Failure? {
          return Failure(nested.error);
        }
        var reloaded := Reload(components.schemas, at, n);
        if reloaded.Failure? {
          return Failure(reloaded.error);
        }
        n := reloaded.value.(items := Some(nested.value.result.node));
        Store(components, at, n);
      }
      return Success(n);
    }

    /**
     * The class branch: the definition is registered when missing, its
     * serializer groups are merged with the model context's, and the class
     * is extracted into it unless that set of groups was seen before for
     * the model.
     */
    method ExtractClassType(ts: TypeSchema.TypeSchemaExtractor, className: string, node: Node, at: Option<Slot>,
                            context: ExtractionContext<OpenApiGenerator>, fuel: nat)
      returns (r: Result<Node>)
      requires fuel >= 1 && Valid() && context.swagger == this && ts in Repr && node.Schema?
      requires at.Some? ==> SlotNode(context.rootSchema.components.schemas, at.value) == Some(node)
      modifies this, Repr, context.rootSchema.components
      ensures Valid() && extractors == old(extractors) && Repr == old(Repr)
      ensures old(sortedExtractors).Some? ==> sortedExtractors == old(sortedExtractors)
      ensures r.Success? ==> r.value.Schema?
      ensures r.Success? && at.Some? ==> SlotNode(context.rootSchema.components.schemas, at.value) == Some(r.value)
      ensures r.Success? && at.None? ==> r.value == node
      ensures r.Success? ==> TypeSchema.DefinitionName(old(ts.GetAliasFor(className))) in context.rootSchema.components.schemas
      ensures r.Success? ==>
        var definition := TypeSchema.DefinitionName(old(ts.GetAliasFor(className)));
        var before := DefinitionBefore(old(context.rootSchema.components.schemas), definition);
        var merged := TypeSchema.MergedGroups(CustomPropertyOf(before, "serializerGroups"), ModelContext(context.parameters));
        before.Schema? && merged.Success?
        && (TypeSchema.Recorded(old(ts.definitionHashes), old(ts.GetAliasFor(className)), TypeSchema.Hash(merged.value)) ==>
              context.rootSchema.components.schemas[definition] == WithCustomProperty(before, "serializerGroups", VArr(merged.value))
              && ts.definitionHashes == old(ts.definitionHashes))
      decreases fuel, 4
    {
      var components := context.rootSchema.components;
      var prep := PrepareModel(ts, className, context);
      if prep.Failure? {
        return Failure(prep.error);
      }
      var definition, updated, seen := prep.value.0, prep.value.1, prep.value.2;
      if !seen {
        RootSlotHolds(components.schemas, definition);
        var nested := ExtractNested(SourceClass(className), ItemNode(updated), Some(Slot(definition, [])), context, fuel);
        if nested.Failure? {
          return Failure(nested.error);
        }
        assert SlotNode(components.schemas, Slot(definition, [])).Some?;
      }
      var reloaded := Reload(components.schemas, at, node);
      if reloaded.Failure? {
        return Failure(reloaded.error);
      }
      return Success(reloaded.value);
    }

    /**
     * The registration half of the class branch: the definition is added
     * when missing, the model context's groups are merged into its
     * `serializerGroups`, and the hash of the merged groups is looked up.
     * Gives the definition's name, its node and whether the hash was seen.
     */
    method PrepareModel(ts: TypeSchema.TypeSchemaExtractor, className: string, context: ExtractionContext<OpenApiGenerator>)
      returns (r: Result<(string, Node, bool)>)
      modifies ts, context.rootSchema.components
      ensures r.Success? ==> r.value.0 == TypeSchema.DefinitionName(old(ts.GetAliasFor(className)))
      ensures r.Success? ==> r.value.1.Schema? && r.value.0 in context.rootSchema.components.schemas
      ensures r.Success? ==> context.rootSchema.components.schemas[r.value.0] == r.value.1
      ensures r.Success? ==>
        var before := DefinitionBefore(old(context.rootSchema.components.schemas), r.value.0);
        var merged := TypeSchema.MergedGroups(CustomPropertyOf(before, "serializerGroups"), ModelContext(context.parameters));
        before.Schema? && merged.Success?
        && r.value.1 == WithCustomProperty(before, "serializerGroups", VArr(merged.value))
        && (r.value.2, ts.definitionHashes)
           == TypeSchema.RecordHash(old(ts.definitionHashes), old(ts.GetAliasFor(className)), TypeSchema.Hash(merged.value))
    {
      var components := context.rootSchema.components;
      var direction := context.GetParameter("direction", VNull);
      var modelContext := context.GetParameter(TypeSchema.ModelContextKey(direction), VNull);
      var name := ts.GetAliasFor(className);
      var definition := TypeSchema.DefinitionName(name);
      if !components.HasSchema(definition) {
        var added := components.AddSchema(definition, EmptySchema.(typeName := Some("object")));
      }
      if definition !in components.schemas {
        return Failure(EngineError("Call to a member function getCustomProperty() on null"));
      }
      var model := components.schemas[definition];
      if model.Reference? {
        return Failure(CustomPropertyAsWritten(model, "serializerGroups").error);
      }
      var merged := TypeSchema.MergedGroups(CustomPropertyOf(model, "serializerGroups"), modelContext);
      if merged.Failure? {
        return Failure(merged.error);
      }
      var updated := WithCustomProperty(model, "serializerGroups", VArr(merged.value));
      components.schemas := components.schemas[definition := updated];
      var seen := ts.HashExists(name, TypeSchema.Hash(merged.value));
      return Success((definition, updated, seen));
    }

    /**
     * ConstraintExtractor's `extract`: the calls to `extractConstraint` for
     * the selected constraints, in order; the class schema they leave is
     * written back.
     */
    method ExtractConstraints(rules: ConstraintRules.ConstraintExtractor, metadata: ConstraintRules.MetadataFactory,
                              effect: ConstraintRules.Effect, source: Source, target: Item, at: Option<Slot>,
                              context: ExtractionContext<OpenApiGenerator>)
      returns (r: Result<Outcome>)
      requires at.Some? ==> target.ItemNode? && SlotNode(context.rootSchema.components.schemas, at.value) == Some(target.node)
      modifies context.rootSchema.components
      ensures var spec := ConstraintRules.ExtractSpec(rules, metadata, source, target, ValidationGroups(context.parameters), effect);
        (spec.Failure? ==> r == Failure(spec.error))
        && (spec.Success? && (spec.value.target == target || IsSchemaTarget(spec.value.target)) ==>
              r == Success(Outcome(spec.value.target, None)))
      ensures r.Success? ==> r.value.replacement.None? && ItemClass(r.value.mutated) == ItemClass(target)
      ensures r.Success? ==> r.value.mutated == target || (IsSchemaTarget(target) && IsSchemaTarget(r.value.mutated))
      ensures r.Success? && at.Some? ==>
        r.value.mutated.ItemNode? && SlotNode(context.rootSchema.components.schemas, at.value) == Some(r.value.mutated.node)
    {
      var out := ConstraintRules.Extract(rules, metadata, source, target, ValidationGroups(context.parameters), effect);
      if out.Failure? {
        return Failure(out.error);
      }
      var t := out.value.target;
      if t == target {
        return Success(Outcome(target, None));
      }
      if !IsSchemaTarget(t) {
        return Failure(NotModelled("an extractConstraint that replaces the class schema"));
      }
      Store(context.rootSchema.components, at, t.node);
      return Success(Outcome(t, None));
    }

    /**
     * JmsExtractor's `extract`: a child of a discriminator map records its
     * parent's alias and has the parent extracted; then every property
     * neither skipped nor inherited from that base gets its schema, extracted
     * into a fresh object, and is stored under its translated name.
     */
    method ExtractJms(e: Extractor, source: Source, target: Item, at: Option<Slot>,
                      context: ExtractionContext<OpenApiGenerator>, fuel: nat)
      returns (r: Result<Outcome>)
      requires e.JmsExtraction? && fuel >= 1 && Valid() && context.swagger == this
      requires at.Some? ==> target.ItemNode? && SlotNode(context.rootSchema.components.schemas, at.value) == Some(target.node)
      modifies this, Repr, context.rootSchema.components
      ensures Valid() && extractors == old(extractors) && Repr == old(Repr)
      ensures old(sortedExtractors).Some? ==> sortedExtractors == old(sortedExtractors)
      ensures r.Success? ==> IsSchemaTarget(r.value.mutated) && r.value.replacement.None?
      ensures r.Success? && at.Some? ==> SlotNode(context.rootSchema.components.schemas, at.value) == Some(r.value.mutated.node)
      ensures r.Success? ==>
        source.SourceClass? && JmsRules.CanExtract(true, IsSchemaTarget(target), source.name, e.factory)
        && (at.None? ==> exists stored ::
              r.value.mutated.node == JmsRules.StoreAll(JmsBase(e, source.name, target.node, old(e.ts.definitionAliases)), stored)
              && PropertiesStored(KeptProperties(e.factory[source.name].propertyMetadata, JmsRules.ExclusionStrategies(target.node),
                                                 e.excluded, e.factory[source.name], source.name), e.naming, stored))
      decreases fuel, 6
    {
      if !(source.SourceClass? && JmsRules.CanExtract(true, IsSchemaTarget(target), source.name, e.factory)) {
        return Failure(ExtractionImpossible(""));
      }
      var className := source.name;
      var meta := e.factory[className];
      var components := context.rootSchema.components;
      var schema := target.node;
      var strategies := JmsRules.ExclusionStrategies(schema);
      var sub := context.CreateSubContext();
      if JmsRules.HasForeignBase(meta, className) {
        var parent := e.parentOf(className);
        if parent.None? {
          return Failure(EngineError("Call to a member function getName() on bool"));
        }
        schema := schema.(parentAlias := Some(e.ts.GetAliasFor(parent.value)));
        Store(components, at, schema);
        var parentSchema := ExtractTemporary(SourceValue(VStr(parent.value)), sub, fuel);
        if parentSchema.Failure? {
          return Failure(parentSchema.error);
        }
        var reloaded := Reload(components.schemas, at, schema);
        if reloaded.Failure? {
          return Failure(reloaded.error);
        }
        schema := reloaded.value;
      }
      assert at.None? ==> schema == JmsBase(e, className, target.node, old(e.ts.definitionAliases));
      var stored := StoreProperties(e, className, strategies, schema, at, sub, fuel);
      if stored.Failure? {
        return Failure(stored.error);
      }
      schema := stored.value;
      return Success(Outcome(ItemNode(schema), None));
    }

    /**
     * PhpDocOperationExtractor's `extract`: summary and description from the
     * doc block, one response per planned request under the status code,
     * the deprecation flag, then each `@param` tag filling the parameter of
     * that name or the body parameter's property of that name.
     */
    method ExtractPhpDoc(e: Extractor, source: Source, target: Item, context: ExtractionContext<OpenApiGenerator>, fuel: nat)
      returns (r: Result<Outcome>)
      requires e.PhpDocExtraction? && fuel >= 1 && Valid() && context.swagger == this
      modifies this, Repr, context.rootSchema.components
      ensures Valid() && extractors == old(extractors) && Repr == old(Repr)
      ensures old(sortedExtractors).Some? ==> sortedExtractors == old(sortedExtractors)
      ensures r.Success? ==>
        source.SourceMethod? && target.ItemOperation?
        && r.value.mutated.ItemOperation? && r.value.replacement.None?
        && OperationDocumented(e, source.className, source.methodName, target.op, r.value.mutated.op)
      decreases fuel, 6
    {
      if !PhpDocRules.CanExtract(source.SourceMethod?, target.ItemOperation?) {
        return Failure(ExtractionImpossible(""));
      }
      var op := DocumentOperation(e, source.className, source.methodName, target.op, context, fuel);
      if op.Failure? {
        return Failure(op.error);
      }
      return Success(Outcome(ItemOperation(op.value), None));
    }

    /** The doc block's contributions to one operation, in the order `extract` makes them. */
    method DocumentOperation(e: Extractor, className: string, methodName: string, before: Operation,
                             context: ExtractionContext<OpenApiGenerator>, fuel: nat)
      returns (r: Result<Operation>)
      requires e.PhpDocExtraction? && fuel >= 1 && Valid() && context.swagger == this
      modifies this, Repr, context.rootSchema.components
      ensures Valid() && extractors == old(extractors) && Repr == old(Repr)
      ensures old(sortedExtractors).Some? ==> sortedExtractors == old(sortedExtractors)
      ensures r.Success? ==> OperationDocumented(e, className, methodName, before, r.value)
      decreases fuel, 5
    {
      var p := e.p;
      var doc := e.docs(className, methodName);
      var declaring := e.declaringClass(className, methodName);
      var status := p.StatusCode(className, methodName);
      var requests := PhpDocRules.PlanResponses(p.resolver, declaring, p.excludedReturnTypes, doc.returnTags);
      var responses := WriteResponses(before.responses, status, requests, context, fuel);
      if responses.Failure? {
        return Failure(responses.error);
      }
      var parameters := FillFromTags(p.resolver, declaring, before.parameters, doc.params, context, fuel);
      if parameters.Failure? {
        return Failure(parameters.error);
      }
      var op := before.(summary := PhpDocRules.SummaryRule(before, doc),
                           description := PhpDocRules.DescriptionRule(before, doc),
                           responses := responses.value,
                           deprecated := PhpDocRules.DeprecatedRule(before, doc),
                           parameters := parameters.value);
      assert status == p.StatusCode(className, methodName);
      assert requests == PhpDocRules.ResponsePlan(p.resolver, declaring, p.excludedReturnTypes, doc.returnTags);
      DocumentedBy(e, className, methodName, before, op, status, requests);
      return Success(op);
    }

    /**
     * The loop over the class's property metadata: each property neither
     * skipped nor inherited from the discriminator base gets its schema and
     * is stored, in order, on the class schema.
     */
    method StoreProperties(e: Extractor, className: string, strategies: seq<seq<string>>, base: Node, at: Option<Slot>,
                           context: ExtractionContext<OpenApiGenerator>, fuel: nat)
      returns (r: Result<Node>)
      requires e.JmsExtraction? && className in e.factory && base.Schema?
      requires fuel >= 1 && Valid() && context.swagger == this
      requires at.Some? ==> SlotNode(context.rootSchema.components.schemas, at.value) == Some(base)
      modifies this, Repr, context.rootSchema.components
      ensures Valid() && extractors == old(extractors) && Repr == old(Repr)
      ensures old(sortedExtractors).Some? ==> sortedExtractors == old(sortedExtractors)
      ensures r.Success? ==> r.value.Schema?
      ensures r.Success? && at.Some? ==> SlotNode(context.rootSchema.components.schemas, at.value) == Some(r.value)
      ensures r.Success? && at.None? ==> exists stored ::
        r.value == JmsRules.StoreAll(base, stored)
        && PropertiesStored(KeptProperties(e.factory[className].propertyMetadata, strategies, e.excluded, e.factory[className], className),
                            e.naming, stored)
      decreases fuel, 4
    {
      var meta := e.factory[className];
      var components := context.rootSchema.components;
      var schema := base;
      ghost var stored: seq<(string, Node)> := [];
      var props := meta.propertyMetadata;
      var i := 0;
      while i < |props|
        invariant 0 <= i <= |props|
        invariant Valid() && extractors == old(extractors) && Repr == old(Repr)
        invariant old(sortedExtractors).Some? ==> sortedExtractors == old(sortedExtractors)
        invariant schema.Schema?
        invariant at.Some? ==> SlotNode(components.schemas, at.value) == Some(schema)
        invariant at.None? ==>
          schema == JmsRules.StoreAll(base, stored)
          && PropertiesStored(KeptProperties(props[..i], strategies, e.excluded, meta, className), e.naming, stored)
      {
        var property := props[i].0;
        var item := props[i].1;
        KeptStep(props, i, strategies, e.excluded, meta, className);
        var skip := JmsRules.ShouldSkipProperty(strategies, item, e.excluded);
        if skip || JmsRules.InheritedFromBase(meta, className, item) {
          i := i + 1;
          continue;
        }
        var step := StoreKeptProperty(e, className, property, item, schema, at, context, fuel);
        if step.Failure? {
          return Failure(step.error);
        }
        var name, ps := e.naming(item), step.value.1;
        if at.None? {
          StoredStep(KeptProperties(props[..i], strategies, e.excluded, meta, className), e.naming, stored, props[i], ps);
          StoreAllSnoc(base, stored, (name, ps));
        }
        schema := step.value.0;
        stored := stored + [(name, ps)];
        i := i + 1;
      }
      assert props[..|props|] == props;
      return Success(schema);
    }

    /**
     * One kept property: its schema is extracted, finished from the
     * metadata, and stored under its serialized name in the class schema,
     * which is read back from its slot first since the nested extraction may
     * have written to it. Gives the new class schema and the property's.
     */
    method StoreKeptProperty(e: Extractor, className: string, property: string, item: JmsRules.JmsProperty, schema: Node,
                             at: Option<Slot>, context: ExtractionContext<OpenApiGenerator>, fuel: nat)
      returns (r: Result<(Node, Node)>)
      requires e.JmsExtraction? && className in e.factory && schema.Schema?
      requires fuel >= 1 && Valid() && context.swagger == this
      requires at.Some? ==> SlotNode(context.rootSchema.components.schemas, at.value) == Some(schema)
      modifies this, Repr, context.rootSchema.components
      ensures Valid() && extractors == old(extractors) && Repr == old(Repr)
      ensures old(sortedExtractors).Some? ==> sortedExtractors == old(sortedExtractors)
      ensures r.Success? ==> r.value.0.Schema? && PropertySchemaShape(item, r.value.1)
      ensures r.Success? && at.Some? ==> SlotNode(context.rootSchema.components.schemas, at.value) == Some(r.value.0)
      ensures r.Success? && at.None? ==> r.value.0 == JmsRules.StoreProperty(schema, e.naming(item), r.value.1)
      decreases fuel, 3
    {
      var components := context.rootSchema.components;
      var extracted := ExtractPropertySchema(item, context, fuel);
      if extracted.Failure? {
        return Failure(extracted.error);
      }
      var ps := JmsRules.FinishPropertySchema(extracted.value, property, item, e.factory[className]);
      var reloaded := Reload(components.schemas, at, schema);
      if reloaded.Failure? {
        return Failure(reloaded.error);
      }
      var updated := JmsRules.StoreProperty(reloaded.value, e.naming(item), ps);
      Store(components, at, updated);
      return Success((updated, ps));
    }

    /**
     * The schema of one JMS property before the metadata's flags are applied:
     * `stdClass` for a map, an array of the extracted item type, or the
     * extracted type itself.
     */
    method ExtractPropertySchema(item: JmsRules.JmsProperty, context: ExtractionContext<OpenApiGenerator>, fuel: nat)
      returns (r: Result<Node>)
      requires fuel >= 1 && Valid() && context.swagger == this
      modifies this, Repr, context.rootSchema.components
      ensures Valid() && extractors == old(extractors) && Repr == old(Repr)
      ensures old(sortedExtractors).Some? ==> sortedExtractors == old(sortedExtractors)
      ensures r.Success? ==> r.value.Schema?
      ensures r.Success? && JmsRules.PlanFor(item).StdClassPlan? ==> r.value == EmptySchema.(typeName := Some("stdClass"))
      ensures r.Success? && JmsRules.PlanFor(item).ArrayPlan? ==> r.value.typeName == Some("array") && r.value.items.Some?
      decreases fuel, 2
    {
      var plan := JmsRules.PlanFor(item);
      if plan.StdClassPlan? {
        return Success(EmptySchema.(typeName := Some("stdClass")));
      }
      if plan.ArrayPlan? {
        var itemSchema := ExtractTemporary(SourceValue(VStr(plan.itemType)), context, fuel);
        if itemSchema.Failure? {
          return Failure(itemSchema.error);
        }
        return Success(EmptySchema.(typeName := Some("array"), items := Some(itemSchema.value)));
      }
      r := ExtractTemporary(SourceValue(plan.typeName), context, fuel);
    }

    /** The responses of the planned requests, each written under the status code in turn. */
    method WriteResponses(responses: seq<(Key, Response)>, status: int, requests: seq<PhpDocRules.ResponseRequest>,
                          context: ExtractionContext<OpenApiGenerator>, fuel: nat)
      returns (r: Result<seq<(Key, Response)>>)
      requires fuel >= 1 && Valid() && context.swagger == this
      modifies this, Repr, context.rootSchema.components
      ensures Valid() && extractors == old(extractors) && Repr == old(Repr)
      ensures old(sortedExtractors).Some? ==> sortedExtractors == old(sortedExtractors)
      ensures r.Success? ==> ResponsesWritten(responses, r.value, status, requests)
      decreases fuel, 4
    {
      var out := responses;
      ghost var written: seq<Response> := [];
      var i := 0;
      while i < |requests|
        invariant 0 <= i <= |requests|
        invariant Valid() && extractors == old(extractors) && Repr == old(Repr)
        invariant old(sortedExtractors).Some? ==> sortedExtractors == old(sortedExtractors)
        invariant out == PhpDocRules.PutAll(responses, status, written)
        invariant |written| == i && forall j :: 0 <= j < i ==> ResponseFor(requests[j], written[j])
      {
        var schema := GenerateResponse(requests[i], context, fuel);
        if schema.Failure? {
          return Failure(schema.error);
        }
        var response := Response(Some(requests[i].description), Some(schema.value), None);
        out := ArrPut(out, IntKey(status), response);
        assert (written + [response])[..|written|] == written;
        written := written + [response];
        i := i + 1;
      }
      return Success(out);
    }

    /** The loop over the `@param` tags. */
    method FillFromTags(res: PhpDocRules.Resolver, declaring: string, parameters: seq<Parameter>, tags: seq<PhpDocRules.ParamTag>,
                        context: ExtractionContext<OpenApiGenerator>, fuel: nat)
      returns (r: Result<seq<Parameter>>)
      requires fuel >= 1 && Valid() && context.swagger == this
      modifies this, Repr, context.rootSchema.components
      ensures Valid() && extractors == old(extractors) && Repr == old(Repr)
      ensures old(sortedExtractors).Some? ==> sortedExtractors == old(sortedExtractors)
      ensures r.Success? ==> ParametersKept(parameters, r.value)
      decreases fuel, 4
    {
      var params := parameters;
      var bodyAt := PhpDocRules.FindBodyParameter(params);
      var t := 0;
      while t < |tags|
        invariant 0 <= t <= |tags|
        invariant Valid() && extractors == old(extractors) && Repr == old(Repr)
        invariant old(sortedExtractors).Some? ==> sortedExtractors == old(sortedExtractors)
        invariant ParametersKept(parameters, params)
        invariant bodyAt.Some? ==> bodyAt.value < |params|
      {
        var next := FillFromTag(res, declaring, params, bodyAt, tags[t], context, fuel);
        if next.Failure? {
          return Failure(next.error);
        }
        params := next.value;
        t := t + 1;
      }
      return Success(params);
    }

    /**
     * One `@param` tag: the parameter of that name gets its description and
     * type where it has none; failing that, the body parameter's property of
     * that name gets its description and, when it has no type, the schema
     * extracted from the tag's type in a sub-context whose direction is "in".
     */
    method FillFromTag(res: PhpDocRules.Resolver, declaring: string, params: seq<Parameter>, bodyAt: Option<nat>,
                       tag: PhpDocRules.ParamTag, context: ExtractionContext<OpenApiGenerator>, fuel: nat)
      returns (r: Result<seq<Parameter>>)
      requires fuel >= 1 && Valid() && context.swagger == this
      requires bodyAt.Some? ==> bodyAt.value < |params|
      modifies this, Repr, context.rootSchema.components
      ensures Valid() && extractors == old(extractors) && Repr == old(Repr)
      ensures old(sortedExtractors).Some? ==> sortedExtractors == old(sortedExtractors)
      ensures r.Success? ==> ParametersKept(params, r.value)
      ensures r.Success? ==> var found := PhpDocRules.FirstMatch(params, PhpDocRules.ParameterName(tag));
        found.Some? ==> r.value == params[found.value :=
          PhpDocRules.FillParameter(params[found.value], tag, PhpDocRules.ConvertTypeToFqcn(res, declaring, tag.typeText))]
      decreases fuel, 2
    {
      var name := PhpDocRules.ParameterName(tag);
      var converted := PhpDocRules.ConvertTypeToFqcn(res, declaring, tag.typeText);
      var found := PhpDocRules.FindParameter(params, name);
      if found.Some? {
        var filled := PhpDocRules.FillParameter(params[found.value], tag, converted);
        ParameterUpdateKept(params, found.value, filled);
        return Success(params[found.value := filled]);
      }
      if bodyAt.None? || PhpDocRules.BodyProperty(params[bodyAt.value], name).None? {
        return Success(params);
      }
      var body := params[bodyAt.value];
      var property := PhpDocRules.FillPropertyDescription(PhpDocRules.BodyProperty(body, name).value, tag.description);
      if PhpDocRules.NeedsType(property) {
        var sub := context.CreateSubContext();
        sub.SetParameter("direction", VStr("in"));
        var x := ExtractNested(SourceValue(VStr(converted)), ItemNode(property), None, sub, fuel);
        if x.Failure? {
          return Failure(x.error);
        }
        property := x.value.original.node;
      }
      var bodySchema := JmsRules.StoreProperty(body.schema.value, name, property);
      var updated := body.(schema := Some(bodySchema));
      ParameterUpdateKept(params, bodyAt.value, updated);
      return Success(params[bodyAt.value := updated]);
    }

    /**
     * `generateResponse`: the response's schema is a fresh object extracted
     * from the type in a sub-context whose direction is "out"; the
     * response keeps that object whatever the generator returns.
     */
    method GenerateResponse(request: PhpDocRules.ResponseRequest, context: ExtractionContext<OpenApiGenerator>, fuel: nat)
      returns (r: Result<Node>)
      requires fuel >= 1 && Valid() && context.swagger == this
      modifies this, Repr, context.rootSchema.components
      ensures Valid() && extractors == old(extractors) && Repr == old(Repr)
      ensures old(sortedExtractors).Some? ==> sortedExtractors == old(sortedExtractors)
      ensures r.Success? ==> r.value.Schema?
      decreases fuel, 2
    {
      var sub := context.CreateSubContext();
      sub.SetParameter("direction", VStr("out"));
      var x := ExtractNested(SourceValue(VStr(request.typeName)), ItemNode(EmptySchema), None, sub, fuel);
      if x.Failure? {
        return Failure(x.error);
      }
      return Success(x.value.original.node);
    }

    /**
     * `extract($source)` with neither target nor context: a new document is
     * the target and a new context is bound to it. What comes back is that
     * document or a Reference an extractor put in its place.
     */
    method ExtractNew(source: Source, fuel: nat) returns (r: Result<Item>, doc: OpenApi)
      requires Valid()
      modifies this, Repr
      ensures Valid() && extractors == old(extractors) && Repr == old(Repr)
      ensures old(sortedExtractors).Some? ==> sortedExtractors == old(sortedExtractors)
      ensures fresh(doc) && fresh(doc.components)
      ensures r.Success? ==> r.value == ItemDocument || IsReference(r.value)
    {
      doc := new OpenApi();
      var context := new ExtractionContext(this, doc);
      var x, trace := Extract(source, ItemDocument, None, context, fuel);
      if x.Failure? {
        return Failure(x.error), doc;
      }
      return Success(x.value.result), doc;
    }
  }
}
