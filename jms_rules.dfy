// The decision rules of Extraction/Extractor/JmsExtractor.php. The JMS
// metadata of a class and of its properties is an input record; the naming
// strategy and the groups exclusion strategy of the serializer are oracles.
// The property loop itself, which calls back into the generator, lives in
// the engine and uses these rules at each step.

module JmsRules {
  import opened Wrappers
  import opened PhpValues
  import opened OpenApiSchema

  /** `$item->type`: the type name and the names of its parameters (a parameter may lack a name). */
  datatype JmsType = JmsType(name: Option<string>, params: seq<Option<string>>)

  /**
   * A property's JMS metadata. `deprecations` holds the descriptions of the
   * `@deprecated` tags of its doc block, None when there is no reflection
   * (a virtual property) or no doc comment; `summary` is what the doc-block
   * factory returns as the summary, None when it throws.
   */
  datatype JmsProperty = JmsProperty(
    name: string,
    declaringClass: string,
    jmsType: Option<JmsType>,
    readOnly: bool,
    groups: Option<seq<string>>,
    deprecations: Option<seq<string>>,
    summary: Option<string>)

  /** A class's JMS metadata; `propertyMetadata` is keyed by property name, in declaration order. */
  datatype JmsClassMetadata = JmsClassMetadata(
    propertyMetadata: seq<(string, JmsProperty)>,
    discriminatorBaseClass: Option<string>,
    discriminatorFieldName: Option<string>)

  /** The serializer's naming strategy (`translateName`). */
  type NamingStrategy = JmsProperty -> string

  /** `GroupsExclusionStrategy::shouldSkipProperty` for the given group list, whose rule is the serializer's. */
  type GroupsExclusion = (seq<string>, JmsProperty) -> bool

  /** `canExtract`: a ReflectionClass source, a Schema target and metadata for the class. */
  predicate CanExtract(isClassSource: bool, isSchemaTarget: bool, className: string, factory: map<string, JmsClassMetadata>)
  {
    isClassSource && isSchemaTarget && className in factory
  }

  /** The names `getNestedTypeInArray` treats as collections. */
  predicate IsCollectionName(t: Option<JmsType>)
  {
    t.Some? && t.value.name.Some? && t.value.name.value in ["array", "ArrayCollection"]
  }

  /** `isset($item->type['params'][$i]['name'])`. */
  predicate HasParamName(t: JmsType, i: nat)
  {
    i < |t.params| && t.params[i].Some?
  }

  /**
   * `getNestedTypeInArray`: for a collection, "stdClass" when a second type
   * parameter is named (a keyed array is a JSON object), else the first
   * parameter's name; null otherwise.
   */
  function NestedTypeInArray(item: JmsProperty): (r: Option<string>)
    ensures r.Some? ==> IsCollectionName(item.jmsType)
    ensures IsCollectionName(item.jmsType) && HasParamName(item.jmsType.value, 1) ==> r == Some("stdClass")
    ensures IsCollectionName(item.jmsType) && !HasParamName(item.jmsType.value, 1) ==>
      (r.Some? <==> HasParamName(item.jmsType.value, 0))
    ensures IsCollectionName(item.jmsType) && !HasParamName(item.jmsType.value, 1) && HasParamName(item.jmsType.value, 0) ==>
      r == item.jmsType.value.params[0]
  {
    if !IsCollectionName(item.jmsType) then None
    else
      var t := item.jmsType.value;
      if HasParamName(t, 1) then Some("stdClass")
      else if HasParamName(t, 0) then t.params[0]
      else None
  }

  /** How the property's schema is obtained. */
  datatype PropertyPlan =
    | StdClassPlan                    // new Schema with type "stdClass"
    | ArrayPlan(itemType: string)     // new Schema with type "array", items extracted from the nested type
    | TypePlan(typeName: Value)       // the schema extracted from `$item->type['name']`

  /** `$item->type['name']`, null when the type or its name is unset. */
  function TypeNameValue(item: JmsProperty): Value
  {
    if item.jmsType.Some? && item.jmsType.value.name.Some? then VStr(item.jmsType.value.name.value) else VNull
  }

  /**
   * The branches at the top of the property loop: the nested type compared
   * with "stdClass", then the nested type tested for truthiness, else the
   * item's own type name.
   */
  function PlanFor(item: JmsProperty): (r: PropertyPlan)
    ensures r.StdClassPlan? <==> NestedTypeInArray(item) == Some("stdClass")
    ensures r.ArrayPlan? ==> Some(r.itemType) == NestedTypeInArray(item) && Truthy(VStr(r.itemType))
    ensures r.TypePlan? <==> !Truthy(OptionalString(NestedTypeInArray(item)))
  {
    var nested := NestedTypeInArray(item);
    if nested == Some("stdClass") then StdClassPlan
    else if Truthy(OptionalString(nested)) then ArrayPlan(nested.value)
    else TypePlan(TypeNameValue(item))
  }

  /** A nullable string as a PHP value. */
  function OptionalString(s: Option<string>): (v: Value)
    ensures s.None? ==> v == VNull
    ensures s.Some? ==> v == VStr(s.value)
  {
    if s.Some? then VStr(s.value) else VNull
  }

  /** The class extends a discriminator base class other than itself. */
  predicate HasForeignBase(meta: JmsClassMetadata, className: string)
  {
    meta.discriminatorBaseClass.Some? && meta.discriminatorBaseClass.value != className
  }

  /** A property declared on that base class is not extracted again. */
  predicate InheritedFromBase(meta: JmsClassMetadata, className: string, item: JmsProperty)
  {
    HasForeignBase(meta, className) && meta.discriminatorBaseClass.value == item.declaringClass
  }

  /** The exclusion strategies: one groups strategy when the schema declares serializer groups. */
  function ExclusionStrategies(schema: Node): (r: seq<seq<string>>)
    ensures schema.Schema? && schema.serializerGroups.Some? ==> r == [schema.serializerGroups.value]
    ensures !(schema.Schema? && schema.serializerGroups.Some?) ==> r == []
  {
    if schema.Schema? && schema.serializerGroups.Some? then [schema.serializerGroups.value] else []
  }

  /** Some strategy excludes the property. */
  predicate SkippedBy(strategies: seq<seq<string>>, item: JmsProperty, excluded: GroupsExclusion)
  {
    exists k :: 0 <= k < |strategies| && excluded(strategies[k], item)
  }

  /** `shouldSkipProperty`: the loop over the strategies, stopping at the first that excludes. */
  method ShouldSkipProperty(strategies: seq<seq<string>>, item: JmsProperty, excluded: GroupsExclusion) returns (skip: bool)
    ensures skip <==> SkippedBy(strategies, item, excluded)
  {
    var k := 0;
    while k < |strategies|
      invariant 0 <= k <= |strategies|
      invariant forall j :: 0 <= j < k ==> !excluded(strategies[j], item)
    {
      if excluded(strategies[k], item) {
        return true;
      }
      k := k + 1;
    }
    return false;
  }

  /** Without serializer groups on the schema no property is skipped by groups. */
  lemma NoGroupsNoSkip(schema: Node, item: JmsProperty, excluded: GroupsExclusion)
    requires !(schema.Schema? && schema.serializerGroups.Some?)
    ensures !SkippedBy(ExclusionStrategies(schema), item, excluded)
  {
  }

  /** With serializer groups the groups strategy alone decides. */
  lemma GroupsDecide(schema: Node, item: JmsProperty, excluded: GroupsExclusion)
    requires schema.Schema? && schema.serializerGroups.Some?
    ensures SkippedBy(ExclusionStrategies(schema), item, excluded) <==> excluded(schema.serializerGroups.value, item)
  {
    assert ExclusionStrategies(schema)[0] == schema.serializerGroups.value;
  }

  // ---------------------------------------------------------------------
  // The property schema

  /** `$s .= $d` for each description in turn; a null string concatenates as "". */
  function Deprecation(current: Option<string>, tags: seq<string>): (r: Option<string>)
    decreases |tags|
  {
    if tags == [] then current
    else Some(Deprecation(current, tags[..|tags| - 1]).GetOr("") + tags[|tags| - 1])
  }

  /** All descriptions one after the other. */
  function Concat(tags: seq<string>): string
    decreases |tags|
  {
    if tags == [] then "" else Concat(tags[..|tags| - 1]) + tags[|tags| - 1]
  }

  /** The loop over the deprecated tags. */
  method AppendDeprecations(current: Option<string>, tags: seq<string>) returns (r: Option<string>)
    ensures r == Deprecation(current, tags)
  {
    r := current;
    var i := 0;
    while i < |tags|
      invariant 0 <= i <= |tags|
      invariant r == Deprecation(current, tags[..i])
    {
      assert tags[..i + 1][..i] == tags[..i];
      r := Some(r.GetOr("") + tags[i]);
      i := i + 1;
    }
    assert tags[..|tags|] == tags;
  }

  /** The descriptions are appended, in order, to what was there (nothing when it was null). */
  lemma {:induction false} DeprecationConcatenates(current: Option<string>, tags: seq<string>)
    requires tags != []
    ensures Deprecation(current, tags) == Some(current.GetOr("") + Concat(tags))
    decreases |tags|
  {
    var init := tags[..|tags| - 1];
    var last := tags[|tags| - 1];
    assert Concat(tags) == Concat(init) + last;
    if init != [] {
      DeprecationConcatenates(current, init);
      assert Deprecation(current, tags) == Some(Deprecation(current, init).GetOr("") + last);
      assert Deprecation(current, init).GetOr("") == current.GetOr("") + Concat(init);
      assert current.GetOr("") + Concat(init) + last == current.GetOr("") + (Concat(init) + last);
    } else {
      assert Concat(init) == "";
      assert Deprecation(current, init) == current;
      assert Deprecation(current, tags) == Some(current.GetOr("") + last);
      assert Concat(tags) == last;
    }
  }

  /**
   * The writes after the schema is obtained: `readOnly` only when the
   * metadata says so, `serializerGroups` always, the deprecation from the
   * doc block, and the summary unless the property is the discriminator
   * field. A Reference has none of these fields, so nothing is kept on one.
   */
  function FinishPropertySchema(s: Node, property: string, item: JmsProperty, meta: JmsClassMetadata): (r: Node)
    ensures s.Reference? ==> r == s
    ensures s.Schema? ==> r.Schema? && r.serializerGroups == item.groups
    ensures s.Schema? ==> r.readOnly == (item.readOnly || s.readOnly)
    ensures s.Schema? ==> r.typeName == s.typeName && r.items == s.items && r.properties == s.properties
  {
    if s.Reference? then s
    else
      var withFlags := s.(readOnly := item.readOnly || s.readOnly, serializerGroups := item.groups);
      var withDeprecation :=
        if item.deprecations.Some? && item.deprecations.value != []
        then withFlags.(deprecated := true, deprecationDescription := Deprecation(withFlags.deprecationDescription, item.deprecations.value))
        else withFlags;
      if Some(property) != meta.discriminatorFieldName && item.summary.Some?
      then withDeprecation.(description := item.summary)
      else withDeprecation
  }

  /** A deprecated property is flagged and carries every tag's description, in order. */
  lemma DeprecatedFlagged(s: Node, property: string, item: JmsProperty, meta: JmsClassMetadata)
    requires s.Schema? && item.deprecations.Some? && item.deprecations.value != []
    ensures FinishPropertySchema(s, property, item, meta).deprecated
    ensures FinishPropertySchema(s, property, item, meta).deprecationDescription
      == Some(s.deprecationDescription.GetOr("") + Concat(item.deprecations.value))
  {
    DeprecationConcatenates(s.deprecationDescription, item.deprecations.value);
  }

  /** Without deprecated tags the deprecation fields are left as they were. */
  lemma NotDeprecatedUntouched(s: Node, property: string, item: JmsProperty, meta: JmsClassMetadata)
    requires s.Schema? && (item.deprecations.None? || item.deprecations.value == [])
    ensures FinishPropertySchema(s, property, item, meta).deprecated == s.deprecated
    ensures FinishPropertySchema(s, property, item, meta).deprecationDescription == s.deprecationDescription
  {
  }

  /** The discriminator field keeps its description; any other property takes the doc-block summary when there is one. */
  lemma DescriptionRule(s: Node, property: string, item: JmsProperty, meta: JmsClassMetadata)
    requires s.Schema?
    ensures Some(property) == meta.discriminatorFieldName ==> FinishPropertySchema(s, property, item, meta).description == s.description
    ensures Some(property) != meta.discriminatorFieldName && item.summary.Some? ==>
      FinishPropertySchema(s, property, item, meta).description == item.summary
    ensures item.summary.None? ==> FinishPropertySchema(s, property, item, meta).description == s.description
  {
  }

  /** `$schema->properties[$name] = $propertySchema` (the array is created when null). */
  function StoreProperty(schema: Node, name: string, p: Node): (r: Node)
    requires schema.Schema?
    ensures r.Schema? && r.properties.Some?
    ensures ArrGet(r.properties.value, name) == Some(p)
    ensures forall k :: k != name && schema.properties.Some? ==> ArrGet(r.properties.value, k) == ArrGet(schema.properties.value, k)
    ensures r.(properties := schema.properties) == schema
  {
    var props := schema.properties.GetOr([]);
    PutLookups(props, name, p);
    schema.(properties := Some(ArrPut(props, name, p)))
  }

  lemma PutLookups<V>(props: seq<(string, V)>, name: string, p: V)
    ensures ArrGet(ArrPut(props, name, p), name) == Some(p)
    ensures forall k :: k != name ==> ArrGet(ArrPut(props, name, p), k) == ArrGet(props, k)
  {
    GetAfterPut(props, name, p);
    forall k | k != name
      ensures ArrGet(ArrPut(props, name, p), k) == ArrGet(props, k)
    {
      GetOtherAfterPut(props, name, p, k);
    }
  }

  /** Storing a sequence of (name, schema) pairs, in order. */
  function StoreAll(schema: Node, stored: seq<(string, Node)>): (r: Node)
    requires schema.Schema?
    ensures r.Schema?
    decreases |stored|
  {
    if stored == [] then schema
    else StoreProperty(StoreAll(schema, stored[..|stored| - 1]), stored[|stored| - 1].0, stored[|stored| - 1].1)
  }

  /** The last pair stored under a name wins. */
  function LastStored(stored: seq<(string, Node)>, name: string): Option<Node>
    decreases |stored|
  {
    if stored == [] then None
    else if stored[|stored| - 1].0 == name then Some(stored[|stored| - 1].1)
    else LastStored(stored[..|stored| - 1], name)
  }

  /**
   * After storing, a name reads as the last schema stored under it, and a
   * name never stored reads as before: a later property with the same
   * translated name overwrites the earlier one.
   */
  lemma {:induction false} StoreAllLookup(schema: Node, stored: seq<(string, Node)>, name: string)
    requires schema.Schema?
    ensures var r := StoreAll(schema, stored);
      LastStored(stored, name).Some? ==> r.properties.Some? && ArrGet(r.properties.value, name) == LastStored(stored, name)
    ensures var r := StoreAll(schema, stored);
      LastStored(stored, name).None? && schema.properties.Some? ==> r.properties.Some? && ArrGet(r.properties.value, name) == ArrGet(schema.properties.value, name)
    decreases |stored|
  {
    if stored != [] {
      StoreAllLookup(schema, stored[..|stored| - 1], name);
    }
  }
}
