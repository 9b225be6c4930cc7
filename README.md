# OpenAPI generator: a Dafny model of the extraction engine

This project models the core of a PHP library that builds an OpenAPI 3.0.0
document out of PHP metadata. An `OpenApiGenerator` holds a table of
*extractors*, filed by section and position. `extract($source, $target)`
runs them in order on a target object. Before each extractor runs, the
target is resolved again, because an earlier extractor may have replaced a
Schema with a Reference into `#/components/schemas/...`. An extractor that
accepts the pair (`canExtract`) fills the target in. It may call the
generator again for nested schemas.

The core extractors are modelled one by one:

- **TypeSchemaExtractor** turns a type string into a primitive schema, an
  array schema, or a reference to a registered class definition. It keeps
  an alias table and a per-model ledger of serializer-group hashes, so that
  a definition is extracted once per group list.
- **JmsExtractor** turns serializer metadata into properties.
- **ConstraintExtractor** hands validator constraints to its subclass.
- **PhpDocOperationExtractor** fills an operation from the method's doc
  block.

Around them the project models:

- the registry (`Components`) and its reference-naming rule;
- the parameter bag handed through an extraction;
- the example generator;
- the serializer listener that moves `x-` keys in and out of custom
  properties;
- the small data classes (`Any`, `PathItem`, `BaseParameter`, the two
  `ArrayAccess` traits and the custom-property trait).

The model keeps the shape of the PHP code:

- Pure rules are datatypes, functions and lemmas.
- Code that changes objects in place is written as classes with
  `modifies` clauses. These are the generator's table and cache, the
  registry, the context, the extractors' own tables, the custom-property
  trait and the array-access traits.
- Each loop of the source is a `method` with its loop, proved equal to a
  specification function.

Schema nodes, operations and responses are values:

- A node that sits in the registry is known by its position there (a
  `Slot`), and every change to it is written back at once. A nested
  extraction that reads the registry therefore sees what PHP's shared object
  would show.
- A `new Schema()` handed to the generator lives in local variables. The
  caller reads its final state from the result.

`resolveReference` is the URI-fragment form of a JSON Pointer (sections 4
and 6 of RFC 6901), without the `~0`/`~1` unescaping. Names and references
follow the Components Object and Reference Object of OpenAPI 3.0.0, and the
`x-` keys follow its Specification Extensions.

Inputs stand in for the code this model cannot see:

- doc blocks, JMS metadata, validator metadata, reflection (`class_exists`,
  parent class, declaring class);
- the naming strategy and the exclusion strategy;
- the FOSRest view's status code;
- `extractConstraint`;
- `json_decode`.

Each of these is a record or an uninterpreted function parameter.

Where the specification and the code disagree, the code is followed. The
exceptions are the source bugs listed under "## Findings": each is modelled
as written beside its corrected rule, and the generator runs the corrected
rule ("## Left out" names the members concerned). Otherwise:

- The sorted list of extractors is computed once and never invalidated.
  An extractor registered after the first `extract` never runs.
- The hash ledger is keyed by the alias-applied class name, not by the
  definition name.
- The JMS extractor writes the `serializerGroups` *field*. The example
  walker reads the `serializerGroups` *custom property*. The model keeps the
  two apart.
- `array_unique` keeps keys, so a merged group list can have gaps, and
  merging the same groups again can renumber the list. The same set of
  groups can therefore hash twice (`TypeSchema.MergeLeavesKeyGap`,
  `TypeSchema.RemergeClosesKeyGap`).
- An alias that starts with `/` registers its definition under the
  sanitized name. The extractor then reads the unsanitized key and finds
  nothing (`TypeSchema.EdgeSlashAliasMissesDefinition`). The engine reports
  this case as the resulting error.

## Model

| member | source | states |
|---|---|---|
| `Document.SchemaReference` | Schema/Components.php:149-152 | a schema reference is `#/components/schemas/` followed by exactly the sanitized name |
| `Document.SanitizeShape` | Schema/Components.php:159-162 | a sanitized name holds no backslash and neither starts nor ends with `/` |
| `Document.SanitizeIdempotent` | Schema/Components.php:159-162 | sanitizing twice equals sanitizing once |
| `Document.SanitizeFixed` | Schema/Components.php:159-162 | a name without backslashes and without edge slashes is its own sanitized form |
| `Document.ReferenceOfSanitized` | Schema/Components.php:149-152 | the reference of a sanitized name equals the reference of the raw name |
| `Document.Components.constructor` | Schema/Components.php:32-128 | every component map of a new registry is empty |
| `Document.Components.AddSchema` | Schema/Components.php:137-142 | the schema is stored under the sanitized name, overwriting an existing entry; `HasSchema` then holds; the returned string is the schema reference; no other component map changes |
| `Document.OpenApi.constructor` | Schema/OpenApi.php:112-115 | a new document has version 3.0.0, no paths, and a fresh registry of its own with no schemas |
| `Extraction.ExtractionContext.constructor` | Extraction/ExtractionContext.php:22-26 | the context is bound to the given generator and root document, with an empty bag |
| `Extraction.ExtractionContext.GetParameter` | Extraction/ExtractionContext.php:41-49 | a present key gives its stored value, even a stored null; an absent key gives the default |
| `Extraction.ExtractionContext.SetParameter` | Extraction/ExtractionContext.php:56-59 | the bag is updated at that one key, which is then present and reads back the value |
| `Extraction.ExtractionContext.RemoveParameter` | Extraction/ExtractionContext.php:61-64 | the key is absent afterwards, and every other key reads as before |
| `Extraction.ExtractionContext.SetParameters` | Extraction/ExtractionContext.php:66-69 | the bag becomes exactly the given one |
| `Extraction.ExtractionContext.CreateSubContext` | Extraction/ExtractionContext.php:71-74 | the sub-context is a new object with an equal bag and the same root document and generator, so later changes to one bag do not reach the other |
| `SpecificationExtension.ExtensionHolder.constructor` | Schema/Traits/SpecificationExtension.php:18 | the custom-property map starts empty |
| `SpecificationExtension.ExtensionHolder.SetCustomProperties` | Schema/Traits/SpecificationExtension.php:23-26 | the map is replaced by the given one |
| `SpecificationExtension.ExtensionHolder.GetCustomProperties` | Schema/Traits/SpecificationExtension.php:28-31 | the map is returned exactly |
| `SpecificationExtension.ExtensionHolder.SetCustomProperty` | Schema/Traits/SpecificationExtension.php:37-40 | the key reads back the value and every other key is unchanged |
| `SpecificationExtension.ExtensionHolder.GetCustomProperty` | Schema/Traits/SpecificationExtension.php:47-50 | a present key gives its value; an absent key gives null |
| `SpecificationExtension.ExtensionHolder.RemoveCustomProperty` | Schema/Traits/SpecificationExtension.php:52-55 | the key is gone (reads null) and every other key is unchanged |
| `OpenApiSchema.WithCustomProperty` | Schema/Traits/SpecificationExtension.php:37-40 | on a schema value, the key reads back the value, other keys and every other field are unchanged |
| `OpenApiSchema.CustomPropertyAsWritten` | Schema/Schema.php:13 | against the classes as declared, reading a custom property of a Schema or Reference is a call to an undefined method |
| `OpenApiSchema.CustomPropertyUnreadable` | Extraction/Extractor/TypeSchemaExtractor.php:107 | that read never yields a value, while with the trait in use a written key reads back |
| `OpenApiSchema.ReadCustomProperty` | Generator/ExamplesGenerator.php:81-96 | corrected: the read succeeds exactly on a Schema, with its stored value or null; on a Reference it fails as declared |
| `AnyValue.Convert` | Schema/Any.php:63-81 | the method's loop computes the conversion function |
| `AnyValue.ConvertIdempotent` | Schema/Any.php:76-78 | converting an already converted value changes nothing |
| `AnyValue.ConvertArrayKeepsKeys` | Schema/Any.php:69-74 | with the array flag, an array keeps its keys in order; each non-null element is wrapped and each null stays null |
| `AnyValue.ConvertWraps` | Schema/Any.php:80 | any other non-null value is wrapped, and the wrapper's data is the original value |
| `AnyValue.Any.constructor` | Schema/Any.php:24-27 | the wrapper holds the given data |
| `AnyValue.Any.GetData` | Schema/Any.php:29-32 | returns the held data |
| `AnyValue.Any.Serialize` | Schema/Any.php:41-44 | serializes to the held data |
| `AnyValue.Any.Deserialize` | Schema/Any.php:52-55 | replaces the held data |
| `ArrayAccessTraits.DataArrayAccess.OffsetExists` | Schema/Traits/ArrayAccess.php:18-21 | true exactly when the key is present with a non-null value |
| `ArrayAccessTraits.DataArrayAccess.OffsetGet` | Schema/Traits/ArrayAccess.php:30-33 | a set key gives its value; a missing or null key gives null |
| `ArrayAccessTraits.DataArrayAccess.OffsetSet` | Schema/Traits/ArrayAccess.php:41-44 | the key reads back the value, and every other key reads as before |
| `ArrayAccessTraits.DataArrayAccess.OffsetUnset` | Schema/Traits/ArrayAccess.php:53-56 | the key is removed, and every other key reads as before |
| `ArrayAccessTraits.ClassPropertiesAccess.OffsetExists` | Schema/Traits/ClassPropertiesArrayAccess.php:17-20 | true exactly when the named field exists and is not null |
| `ArrayAccessTraits.ClassPropertiesAccess.OffsetGet` | Schema/Traits/ClassPropertiesArrayAccess.php:29-32 | gives the field's value, or null for an undeclared field |
| `ArrayAccessTraits.ClassPropertiesAccess.OffsetSet` | Schema/Traits/ClassPropertiesArrayAccess.php:40-43 | only the named field changes |
| `ArrayAccessTraits.ClassPropertiesAccess.OffsetUnset` | Schema/Traits/ClassPropertiesArrayAccess.php:52-55 | the field is set to null and kept, so `OffsetExists` is then false |
| `PathItems.GetOperations` | Schema/PathItem.php:162-173 | the method's loop computes the operations function |
| `PathItems.OperationsAmongAppend` | Schema/PathItem.php:166-170 | walking one more method appends that method's entry after the earlier ones, as each foreach step does |
| `PathItems.OperationsAmongSound` | Schema/PathItem.php:166-170 | every entry is a listed method whose field holds exactly that operation |
| `PathItems.OperationsAmongComplete` | Schema/PathItem.php:166-170 | every listed method whose field holds an operation appears |
| `PathItems.OperationsAmongOrdered` | Schema/PathItem.php:164 | entries keep the order of the method list |
| `PathItems.OperationsProperties` | Schema/PathItem.php:162-173 | at most 8 entries, each the field's own operation, in the order get, put, post, delete, options, head, patch, trace, and every set field present |
| `PathItems.NoOperations` | Schema/PathItem.php:165-172 | with no operation set the result is empty |
| `Parameters.NewParameter` | Schema/BaseParameter.php:65-143 | a new parameter keeps its class, is not required and not deprecated, has an empty `examples` array and no schema, content or example |
| `Parameters.Validate` | Schema/BaseParameter.php:163-189 | corrected rule: one violation for both schema and content, one for neither, one for an example beside non-empty examples, each if and only if its condition holds |
| `Parameters.ValidateAsWritten` | Schema/BaseParameter.php:163-189 | as written: the "neither" violation appears exactly when schema or content is set; the other two as in the corrected rule |
| `Parameters.ValidIffExactlyOneOfSchemaAndContent` | Schema/BaseParameter.php:165-188 | under the corrected rule, a parameter is valid exactly when it has one of schema or content and no example clash |
| `Parameters.AsWrittenFlagsWellFormedParameter` | Schema/BaseParameter.php:173-180 | the rule as written flags a parameter that has only a schema |
| `Parameters.AsWrittenMissesEmptyParameter` | Schema/BaseParameter.php:173-180 | the rule as written accepts a parameter with neither schema nor content |
| `SerializerListener.PreSerializeType` | JMSSerializerListener.php:30-39 | a BaseParameter subclass instance is serialized as its own class; otherwise the declared type stays |
| `SerializerListener.PreSerializeIdempotent` | JMSSerializerListener.php:33-38 | retyping twice equals retyping once |
| `SerializerListener.OnPreDeserialize` | JMSSerializerListener.php:46-86 | the method's loop computes the key-moving function |
| `SerializerListener.PreDeserializeMovesExtensions` | JMSSerializerListener.php:65-85 | with no `x-` key the data is unchanged; otherwise every `x-` entry moves, with its full key and value, into `customProperties`, and every other entry stays |
| `SerializerListener.PreDeserializeGuard` | JMSSerializerListener.php:52-63 | a missing class, a class without extension support, or non-array data leaves the data unchanged |
| `SerializerListener.PreDeserialize` | JMSSerializerListener.php:52-86 | as written: the three guards leave the data unchanged, and an array stays an array |
| `SerializerListener.PreDeserializeStripped` | JMSSerializerListener.php:52-86 | corrected: the same guards, with the prefix stripped from the collected keys |
| `SerializerListener.OnPostSerialize` | JMSSerializerListener.php:88-102 | with extension support, the output adds an `x-` key for every custom property the loop emitted; otherwise the data is unchanged |
| `SerializerListener.EmittedRule` | JMSSerializerListener.php:95-101 | every non-null custom property `k` is written as `x-k` with its value, null-valued ones are omitted, and every written key starts with `x-` |
| `SerializerListener.RoundTripDoublesPrefix` | JMSSerializerListener.php:77-98 | if the deserializer stores the collected `customProperties` array on the object, `x-foo` is collected under its full key and re-emitted as `x-x-foo`, so the directions are not inverses |
| `SerializerListener.StrippedRoundTrip` | JMSSerializerListener.php:67-101 | with the prefix stripped on reading, every non-null `x-` entry is written back under its own key and value |
| `TypeSchema.ConvertType` | Extraction/Extractor/TypeSchemaExtractor.php:190-216 | a table hit never carries a subtype or a class |
| `TypeSchema.ConvertTypeDomain` | Extraction/Extractor/TypeSchemaExtractor.php:192-212 | the lookup succeeds exactly for the fifteen table keys |
| `TypeSchema.ConvertTypeRange` | Extraction/Extractor/TypeSchemaExtractor.php:192-208 | results are among the six JSON types; only `stdClass` gives object; exactly int, integer and long give integer |
| `TypeSchema.GetPrimitiveType` | Extraction/Extractor/TypeSchemaExtractor.php:157-188 | corrected: a result with a subtype is an array whose text is the subtype plus one trailing `[]`; a non-string is unclassified |
| `TypeSchema.ArrayTypeClassified` | Extraction/Extractor/TypeSchemaExtractor.php:165-174 | `T[]` with no other marker classifies as an array of `T` |
| `TypeSchema.GetPrimitiveTypeAsWritten` | Extraction/Extractor/TypeSchemaExtractor.php:157-188 | as written: an array's item type is the text without its last two characters; on a type with no `[]` it agrees with the corrected classifier; a non-string is unclassified |
| `TypeSchema.AsWrittenAgrees` | Extraction/Extractor/TypeSchemaExtractor.php:165-174 | except on texts with a second marker, the check as written and the corrected one agree |
| `TypeSchema.AsWrittenAcceptsMisplacedMarker` | Extraction/Extractor/TypeSchemaExtractor.php:165-169 | as written, `A[][` classifies as an array of `A[`; the corrected check rejects it |
| `TypeSchema.MalformedArrayTypesRejected` | Extraction/Extractor/TypeSchemaExtractor.php:165-169 | `A[][]` and `A[]B` are unclassified |
| `TypeSchema.NonStringSourceUnclassified` | Extraction/Extractor/TypeSchemaExtractor.php:159-161 | a non-string source classifies as null in both versions |
| `TypeSchema.AliasFor` | Extraction/Extractor/TypeSchemaExtractor.php:94-96 | a registered alias replaces the name; otherwise the name is kept |
| `TypeSchema.DefinitionName` | Extraction/Extractor/TypeSchemaExtractor.php:98 | the definition name has no backslash, the same length, and slashes exactly where the name has them |
| `TypeSchema.DefinitionNameStable` | Extraction/Extractor/TypeSchemaExtractor.php:98-104 | without a slash in the name, the definition name is its own sanitized form |
| `TypeSchema.EdgeSlashAliasMissesDefinition` | Extraction/Extractor/TypeSchemaExtractor.php:98-104 | with a leading slash, the registry key differs from the key that is read back |
| `TypeSchema.ModelContextKey` | Extraction/Extractor/TypeSchemaExtractor.php:88-92 | a truthy direction selects `<direction>-model-context`; otherwise `model-context` |
| `TypeSchema.MergeWithoutIncoming` | Extraction/Extractor/TypeSchemaExtractor.php:107-112 | without incoming groups, the stored list (or `[]`) is kept exactly |
| `TypeSchema.MergeIsUnion` | Extraction/Extractor/TypeSchemaExtractor.php:108-109 | merging two group lists gives their union, each group once, as a list |
| `TypeSchema.MergeLeavesKeyGap` | Extraction/Extractor/TypeSchemaExtractor.php:109 | merging `["a"]` with `["a","b"]` stores `[0 => "a", 2 => "b"]` |
| `TypeSchema.RemergeClosesKeyGap` | Extraction/Extractor/TypeSchemaExtractor.php:109-115 | merging the same groups into that result gives `[0 => "a", 1 => "b"]`, a different array for the same groups |
| `TypeSchema.RecordHash` | Extraction/Extractor/TypeSchemaExtractor.php:142-155 | the answer is "already recorded"; afterwards the pair is recorded, and nothing else is added or lost |
| `TypeSchema.ReplayRecorded` | Extraction/Extractor/TypeSchemaExtractor.php:149-154 | once a pair is recorded, every later query for it answers true |
| `TypeSchema.AtMostOncePerHash` | Extraction/Extractor/TypeSchemaExtractor.php:118-124 | in any sequence of queries, every repeat of a (name, hash) pair answers true, so the nested extraction runs at most once per pair |
| `TypeSchema.TypeSchemaExtractor.RegisterDefinitionAlias` | Extraction/Extractor/TypeSchemaExtractor.php:20-23 | the alias is recorded (overwriting); other classes resolve as before, and the hash ledger is untouched |
| `TypeSchema.TypeSchemaExtractor.GetAliasFor` | Extraction/Extractor/TypeSchemaExtractor.php:218-224 | the registered alias, or the class name when none is registered |
| `TypeSchema.TypeSchemaExtractor.HashExists` | Extraction/Extractor/TypeSchemaExtractor.php:142-155 | answer and new ledger are those of the ledger function; the aliases are untouched |
| `JmsRules.NestedTypeInArray` | Extraction/Extractor/JmsExtractor.php:187-202 | only `array`/`ArrayCollection` apply; a second parameter gives `stdClass`, else the first parameter's name, else null |
| `JmsRules.PlanFor` | Extraction/Extractor/JmsExtractor.php:120-129 | a nested `stdClass` gives the stdClass schema; another truthy nested type gives an array of it; otherwise the item's own type is extracted |
| `JmsRules.ExclusionStrategies` | Extraction/Extractor/JmsExtractor.php:91-98 | one group strategy exactly when the schema's `serializerGroups` field is set |
| `JmsRules.ShouldSkipProperty` | Extraction/Extractor/JmsExtractor.php:230-239 | skips exactly when some strategy excludes the property |
| `JmsRules.NoGroupsNoSkip` | Extraction/Extractor/JmsExtractor.php:96-98 | without `serializerGroups` no property is skipped by groups |
| `JmsRules.GroupsDecide` | Extraction/Extractor/JmsExtractor.php:96-111 | with `serializerGroups`, a property is skipped exactly when the group strategy excludes it |
| `JmsRules.AppendDeprecations` | Extraction/Extractor/JmsExtractor.php:150-152 | the method's loop computes the deprecation function |
| `JmsRules.DeprecationConcatenates` | Extraction/Extractor/JmsExtractor.php:150-152 | the descriptions of all deprecated tags are appended in order to the existing text |
| `JmsRules.FinishPropertySchema` | Extraction/Extractor/JmsExtractor.php:131-168 | `serializerGroups` is the metadata's; read-only is set only when the metadata says so; type, items and properties are kept |
| `JmsRules.DeprecatedFlagged` | Extraction/Extractor/JmsExtractor.php:146-153 | with deprecated tags, the schema is deprecated and the descriptions are concatenated |
| `JmsRules.NotDeprecatedUntouched` | Extraction/Extractor/JmsExtractor.php:140-155 | without deprecated tags, both deprecation fields are unchanged |
| `JmsRules.DescriptionRule` | Extraction/Extractor/JmsExtractor.php:161-168 | the discriminator field keeps its description; other properties take the doc summary when there is one |
| `JmsRules.StoreProperty` | Extraction/Extractor/JmsExtractor.php:158-159 | the property is stored under its name, overwriting an earlier one; other properties and fields are unchanged |
| `JmsRules.StoreAllLookup` | Extraction/Extractor/JmsExtractor.php:158-159 | after storing a sequence, each name holds the last schema stored under it; other names keep their schema |
| `ConstraintRules.AssertSupportConstraint` | Extraction/Extractor/ConstraintExtractor.php:34-45 | fails with an invalid-argument error exactly when the constraint is unsupported |
| `ConstraintRules.GroupNames` | Extraction/Extractor/ConstraintExtractor.php:68 | the groups parameter is accepted exactly when it is an array, one name per element |
| `ConstraintRules.EffectiveGroups` | Extraction/Extractor/ConstraintExtractor.php:75-77 | an empty group list becomes `["Default"]`; others are kept |
| `ConstraintRules.DropEmpty` | Extraction/Extractor/ConstraintExtractor.php:119 | only properties with a non-empty list remain |
| `ConstraintRules.MergeGroupConstraints` | Extraction/Extractor/ConstraintExtractor.php:94-100 | the method's loop computes the group concatenation |
| `ConstraintRules.RemoveDuplicates` | Extraction/Extractor/ConstraintExtractor.php:102-108 | the method's loop computes the first-occurrence deduplication |
| `ConstraintRules.PropertyConstraintList` | Extraction/Extractor/ConstraintExtractor.php:91-116 | the method's loop computes the property's list over its metadata |
| `ConstraintRules.GetPropertiesConstraints` | Extraction/Extractor/ConstraintExtractor.php:68-120 | a non-array groups argument fails; a class without metadata has no constraints; otherwise the kept properties' non-empty lists |
| `ConstraintRules.CollectConstraints` | Extraction/Extractor/ConstraintExtractor.php:79-117 | the loop over the constrained properties computes the per-property lists for the properties the schema has |
| `ConstraintRules.CanExtract` | Extraction/Extractor/ConstraintExtractor.php:55-66 | false for a target that is not a Schema or a source that is not a class; false for a class without validator metadata |
| `ConstraintRules.ContextFor` | Extraction/Extractor/ConstraintExtractor.php:138-150 | the context names the class schema, the property, context "property", and the property's schema read from the target |
| `ConstraintRules.RunProperty` | Extraction/Extractor/ConstraintExtractor.php:147-151 | the inner loop extends the run by the property's constraints |
| `ConstraintRules.RunAll` | Extraction/Extractor/ConstraintExtractor.php:146-152 | the outer loop equals the run over all (property, constraint) pairs |
| `ConstraintRules.Extract` | Extraction/Extractor/ConstraintExtractor.php:132-153 | the method computes the extraction function |
| `ConstraintRules.ApplyConstraints` | Extraction/Extractor/ConstraintExtractor.php:144-152 | an error while collecting constraints is the result; with no constraints the target is untouched; otherwise the target and calls are those of the run over all pairs |
| `ConstraintRules.NoMetadataNoConstraints` | Extraction/Extractor/ConstraintExtractor.php:71-73 | a class without metadata has no constraints, so `canExtract` is false |
| `ConstraintRules.MissingGroupsSelectDefault` | Extraction/Extractor/ConstraintExtractor.php:65-77 | a missing `validation-groups` parameter reads as `[]`, which selects `["Default"]` |
| `ConstraintRules.MergeGroupsMembers` | Extraction/Extractor/ConstraintExtractor.php:95-100 | a constraint is in the merge exactly when some group yields it |
| `ConstraintRules.DedupMembers` | Extraction/Extractor/ConstraintExtractor.php:104-108 | deduplication keeps exactly the same members, each once |
| `ConstraintRules.DedupDistinct` | Extraction/Extractor/ConstraintExtractor.php:104-108 | a list without duplicates is unchanged |
| `ConstraintRules.SupportedMembers` | Extraction/Extractor/ConstraintExtractor.php:110-113 | the filter keeps exactly the supported members and keeps them distinct |
| `ConstraintRules.FinalListMembers` | Extraction/Extractor/ConstraintExtractor.php:94-113 | a constraint is in a metadata's final list exactly when it is supported and some group yields it; the list is distinct |
| `ConstraintRules.PropertyListMembers` | Extraction/Extractor/ConstraintExtractor.php:91-116 | a property's list holds exactly the members of its metadatas' final lists |
| `ConstraintRules.CollectLookup` | Extraction/Extractor/ConstraintExtractor.php:83-117 | a name has a list exactly when it is constrained and present in `schema.properties` |
| `ConstraintRules.CollectDistinct` | Extraction/Extractor/ConstraintExtractor.php:83-90 | each property name appears once |
| `ConstraintRules.DropEmptyLookup` | Extraction/Extractor/ConstraintExtractor.php:119 | a name survives exactly when its list is non-empty |
| `ConstraintRules.PropertiesConstraintsLookup` | Extraction/Extractor/ConstraintExtractor.php:68-120 | a property maps to its list exactly when it is constrained, present in the schema, and its list is non-empty |
| `ConstraintRules.AbsentPropertyIgnored` | Extraction/Extractor/ConstraintExtractor.php:86-88 | a property absent from `schema.properties` gets no constraints |
| `ConstraintRules.RunTrace` | Extraction/Extractor/ConstraintExtractor.php:146-152 | one call per pair, in order, each with that property's name, context "property" and the property schema of the class schema it is given |
| `ConstraintRules.PairsMembers` | Extraction/Extractor/ConstraintExtractor.php:146-147 | a (property, constraint) pair is visited exactly when the constraint is in that property's list |
| `ConstraintRules.ExtractCalls` | Extraction/Extractor/ConstraintExtractor.php:146-152 | when `canExtract` holds, `extractConstraint` is called once per (property, constraint) pair, in order, with `propertySchema = target.properties[name]` |
| `ConstraintRules.ExtractGuard` | Extraction/Extractor/ConstraintExtractor.php:134-136 | when `canExtract` is false, nothing happens; the extraction fails exactly when `canExtract` fails |
| `PhpDocRules.ConvertTypeToFqcn` | Extraction/Extractor/PhpDocOperationExtractor.php:227-243 | a type containing `[]` has its brackets trimmed, is resolved and gets `[]` back; any other type is resolved as is |
| `PhpDocRules.ArrayTypeResolved` | Extraction/Extractor/PhpDocOperationExtractor.php:231-241 | `T[]` converts to the resolved `T` followed by `[]` |
| `PhpDocRules.TagTypes` | Extraction/Extractor/PhpDocOperationExtractor.php:97-101 | a return tag yields at least one type |
| `PhpDocRules.SkipsCount` | Extraction/Extractor/PhpDocOperationExtractor.php:105-117 | the skip counter reaches the type count exactly when every type is excluded, and then no typed response is made |
| `PhpDocRules.TypeLoopPrefix` | Extraction/Extractor/PhpDocOperationExtractor.php:103-119 | the loop state after a prefix of the types: the skip counter and the kept responses, or one generic response once every type was excluded |
| `PhpDocRules.TagResponsesRule` | Extraction/Extractor/PhpDocOperationExtractor.php:103-119 | a tag yields one response per non-excluded type, plus a generic one only when every type is excluded |
| `PhpDocRules.TagLoop` | Extraction/Extractor/PhpDocOperationExtractor.php:103-119 | the method's loop computes the tag's requests |
| `PhpDocRules.PlanResponses` | Extraction/Extractor/PhpDocOperationExtractor.php:86-121 | the method's loop computes the response plan |
| `PhpDocRules.NoReturnTagsOneResponse` | Extraction/Extractor/PhpDocOperationExtractor.php:88-89 | with no return tags exactly one generic response is planned |
| `PhpDocRules.PutAllLastWins` | Extraction/Extractor/PhpDocOperationExtractor.php:270 | after writing several responses under one status code, the last one is there and other codes are untouched |
| `PhpDocRules.SummaryRule` | Extraction/Extractor/PhpDocOperationExtractor.php:78-80 | the summary is written only when empty |
| `PhpDocRules.DescriptionAsWritten` | Extraction/Extractor/PhpDocOperationExtractor.php:82-84 | as written, the description is overwritten only when already non-empty |
| `PhpDocRules.DescriptionRule` | Extraction/Extractor/PhpDocOperationExtractor.php:82-84 | corrected: the description is filled only when empty |
| `PhpDocRules.DescriptionInverted` | Extraction/Extractor/PhpDocOperationExtractor.php:82-84 | as written, an empty description stays empty and a hand-written one is replaced; the corrected rule fills the empty one |
| `PhpDocRules.DescriptionRulesDisagree` | Extraction/Extractor/PhpDocOperationExtractor.php:82-84 | whenever the doc text differs from the current description, the two rules give different results |
| `PhpDocRules.DeprecatedRule` | Extraction/Extractor/PhpDocOperationExtractor.php:123-125 | a `@deprecated` tag sets the flag; otherwise it is kept |
| `PhpDocRules.FirstMatch` | Extraction/Extractor/PhpDocOperationExtractor.php:142-147 | the index of the first parameter with that name, or none when no parameter has it |
| `PhpDocRules.FindParameter` | Extraction/Extractor/PhpDocOperationExtractor.php:142-147 | the method's loop finds that first match |
| `PhpDocRules.FirstBody` | Extraction/Extractor/PhpDocOperationExtractor.php:129-134 | the index of the first body parameter, or none |
| `PhpDocRules.FindBodyParameter` | Extraction/Extractor/PhpDocOperationExtractor.php:129-134 | the method's loop finds that first body parameter |
| `PhpDocRules.FillParameter` | Extraction/Extractor/PhpDocOperationExtractor.php:149-156 | description and type are filled only when empty; nothing else changes |
| `PhpDocRules.BodyProperty` | Extraction/Extractor/PhpDocOperationExtractor.php:160-163 | a property is found only in a body parameter whose schema has properties |
| `PhpDocRules.FillPropertyDescription` | Extraction/Extractor/PhpDocOperationExtractor.php:165-167 | a schema property's description is filled only when empty |
| `PhpDocRules.ExceptionInformationFirst` | Extraction/Extractor/PhpDocOperationExtractor.php:206-215 | the first registered matching class gives its entry; with no match the result is (500, null) |
| `PhpDocRules.PhpDocOperationExtractor.constructor` | Extraction/Extractor/PhpDocOperationExtractor.php:51-54 | no exception codes and no excluded types at first; the view and resolver are the given ones |
| `PhpDocRules.PhpDocOperationExtractor.SetExcludedTypes` | Extraction/Extractor/PhpDocOperationExtractor.php:42-45 | the excluded types are replaced; the exception codes are kept |
| `PhpDocRules.PhpDocOperationExtractor.RegisterExceptionResponseCodes` | Extraction/Extractor/PhpDocOperationExtractor.php:217-220 | the class's entry is (code, message), overwriting in place; other classes and the key order are kept |
| `PhpDocRules.PhpDocOperationExtractor.GetExceptionInformation` | Extraction/Extractor/PhpDocOperationExtractor.php:206-215 | the method's loop computes the first-match function |
| `PhpDocRules.PhpDocOperationExtractor.StatusCode` | Extraction/Extractor/PhpDocOperationExtractor.php:282-290 | the view's status code when it gives one, else 200 |
| `Examples.ShouldSkipUsingGroups` | Generator/ExamplesGenerator.php:144-153 | the method's loop computes the group-skip predicate |
| `Examples.SkipRule` | Generator/ExamplesGenerator.php:135-153 | without property groups, skipped iff `Default` is not active; otherwise skipped iff no property group is active |
| `Examples.SubGroupsIntersect` | Generator/ExamplesGenerator.php:96-98 | with both lists present, the sub-property's groups are their intersection |
| `Examples.ExampleOf` | Generator/ExamplesGenerator.php:73-128 | every example is null, a scalar, or an array of non-null examples |
| `Examples.PropertiesExample` | Generator/ExamplesGenerator.php:93-123 | an object's collected example holds only non-null values |
| `Examples.PropertyExample` | Generator/ExamplesGenerator.php:95-121 | one property adds at most a non-null value; its groups are read before `allOf` is unwrapped, so a property that is itself a Reference fails |
| `Examples.GetExampleOfType` | Generator/ExamplesGenerator.php:73-128 | the method equals the walker function |
| `Examples.PropertiesLoop` | Generator/ExamplesGenerator.php:93-123 | the properties loop equals the walker over the properties |
| `Examples.PropertyStep` | Generator/ExamplesGenerator.php:95-121 | one loop iteration equals the walker's property step, failing on a property that is itself a Reference |
| `Examples.DirectReferencePropertyFails` | Generator/ExamplesGenerator.php:96 | a sub-property that is a Reference stops the walk with the undefined-method error of `getCustomProperty` |
| `Examples.ScalarExamples` | Generator/ExamplesGenerator.php:79-91 | with null groups: integer gives 1, number 1.2, boolean true, string `"string"` |
| `Examples.OtherTypesGiveNull` | Generator/ExamplesGenerator.php:83-127 | any other type, or no type, gives null |
| `Examples.SkippedWithoutDefault` | Generator/ExamplesGenerator.php:79-82 | a schema without groups gives null when `Default` is not active |
| `Examples.GroupFilterScenario` | Generator/ExamplesGenerator.php:79-91 | an `admin` property is dropped under `Default` and given under `admin` |
| `Examples.EmptyObjectIsNull` | Generator/ExamplesGenerator.php:92-123 | an object with no non-null property example gives null, not `{}` |
| `Examples.AllOfFirstWalked` | Generator/ExamplesGenerator.php:99-101 | a property with `allOf` is walked as `allOf[0]` |
| `Examples.SelfReferenceGuard` | Generator/ExamplesGenerator.php:99-118 | a property whose `allOf` holds a Reference to the current reference is dropped below the first level and walked once, non-recursively, at the first |
| `Examples.ObjectExample` | Generator/ExamplesGenerator.php:92-123 | an object's example is its non-null property examples, or null when there are none |
| `Examples.ParentGuarded` | Generator/ExamplesGenerator.php:99-114 | in a non-recursive call a property wrapping a Reference to the current reference in `allOf` adds nothing |
| `Examples.SelfReferencingDefinition` | Generator/ExamplesGenerator.php:93-118 | a `Node` with `id` and a `parent` whose `allOf` refers back to `Node` gives `{id: 1, parent: {id: 1}}` |
| `Examples.ContentWithExamples` | Generator/ExamplesGenerator.php:41-46 | every media type gets the example of its schema; keys and schemas are kept |
| `Examples.ResponsesWithExamplesShape` | Generator/ExamplesGenerator.php:50-56 | every response keeps its code and fields; its content gets examples |
| `Examples.OperationWithExamples` | Generator/ExamplesGenerator.php:37-56 | request bodies use the `deserializationGroups` custom property, responses `serializationGroups`; nothing else changes |
| `Examples.PathsWithExamples` | Generator/ExamplesGenerator.php:36-59 | every path keeps its key and gets its path item's examples |
| `Examples.ApplyOperationsFields` | Generator/ExamplesGenerator.php:37-58 | each listed method's field gets the operation with examples; other fields are unchanged |
| `Examples.PathItemFields` | Generator/ExamplesGenerator.php:37-58 | every operation of a path item gets its examples and an unset method stays unset |
| `Examples.FillContent` | Generator/ExamplesGenerator.php:41-46 | the loop computes the content function |
| `Examples.FillResponses` | Generator/ExamplesGenerator.php:50-56 | the loop computes the responses function |
| `Examples.FillOperation` | Generator/ExamplesGenerator.php:37-57 | the method computes the operation function |
| `Examples.FillPathItem` | Generator/ExamplesGenerator.php:37-58 | the method computes the path-item function |
| `Examples.FillPaths` | Generator/ExamplesGenerator.php:36-59 | the loop computes the paths function |
| `Examples.GenerateExamples` | Generator/ExamplesGenerator.php:34-60 | the document's paths become the paths with examples; on an error they are unchanged and the error is reported |
| `ExtractorTable.Register` | OpenApiGenerator.php:63-66 | the extractor is appended to its `[section][position]` bucket; other buckets are untouched; a new section goes last |
| `ExtractorTable.KSortSorts` | OpenApiGenerator.php:145 | sorting the positions makes them ascending and is a permutation of the buckets |
| `ExtractorTable.RegistrationOrder` | OpenApiGenerator.php:63-66 | two extractors at one position keep registration order |
| `ExtractorTable.AsWrittenDropsFirstSection` | OpenApiGenerator.php:144-147 | as written, after the constructor's JSON extractor and one default extractor, only the latter runs; corrected, both run, the JSON one first |
| `ExtractorTable.SortedAsWritten` | OpenApiGenerator.php:142-150 | as written: the list is the last section's list, which the intended list ends with |
| `ExtractorTable.Sorted` | OpenApiGenerator.php:142-150 | corrected: every section's extractors appear in the list |
| `ExtractorTable.SortedConcatenates` | OpenApiGenerator.php:144-147 | corrected, a section's list is appended to the sorted list; as written, it replaces it |
| `ExtractorTable.SectionOrder` | OpenApiGenerator.php:145-146 | a section's list concatenates its buckets in ascending position order |
| `References.ResolveReference` | OpenApiGenerator.php:166-185 | the method's loop computes the resolution function |
| `References.ResolvedSlotHoldsNode` | OpenApiGenerator.php:171-181 | a node found in the registry is the one stored at the slot the walk reports |
| `References.ResolveNonReference` | OpenApiGenerator.php:168-184 | a non-Reference is returned unchanged |
| `References.StripFragment` | OpenApiGenerator.php:169 | leading `#` and `/` are stripped |
| `References.SplitRegistryPath` | OpenApiGenerator.php:169 | a registry path splits into its three parts |
| `References.RegistryReferenceParts` | OpenApiGenerator.php:169 | a schema reference splits into `components`, `schemas` and the name |
| `References.WalkRegistryPath` | OpenApiGenerator.php:171-180 | walking those parts reaches the named definition, or null for a missing key |
| `References.ResolveRegistryReference` | OpenApiGenerator.php:166-185 | a reference to a definition resolves to the registered node and its slot, or to null when absent |
| `References.ResolveSchemaReference` | OpenApiGenerator.php:166-185 | the reference `SchemaReference(n)` resolves to the definition under the sanitized name |
| `References.UnknownRootField` | OpenApiGenerator.php:175-178 | an unknown field of the root document throws "Reference ... not found." |
| `References.EmptyFragment` | OpenApiGenerator.php:169-178 | `#` and `#/` throw "not found", because explode yields one empty part |
| `Engine.ValidationGroups` | Extraction/Extractor/ConstraintExtractor.php:142 | a missing `validation-groups` parameter reads as `[]` |
| `Engine.JsonApplicable` | Extraction/Extractor/OpenApiJsonSchemaExtractor.php:64-92 | the JSON extractor applies only to a string source and the root document |
| `Engine.ApplicableTargets` | OpenApiGenerator.php:126 | the type, JMS and constraint extractors accept only Schema targets; the type extractor only strings; JMS and constraints only classes; PhpDoc only a method and an Operation; JSON only a string and the document |
| `Engine.JsonNeedsVersion` | Extraction/Extractor/OpenApiJsonSchemaExtractor.php:78-85 | undecodable JSON or a missing `openapi` key is rejected |
| `Engine.JsonVersionRule` | Extraction/Extractor/OpenApiJsonSchemaExtractor.php:87-91 | a decoded version is accepted exactly when it starts with `3.` |
| `Engine.ItemClass` | OpenApiGenerator.php:129 | `get_class` is defined exactly on objects; it is Schema exactly on Schema targets and Reference exactly on References |
| `Engine.ResolvedSlotOrDetached` | OpenApiGenerator.php:124 | a resolved Reference is a registry node at a known slot or something no extractor changes |
| `Engine.LastReplacementIsLastChange` | OpenApiGenerator.php:129-134 | the result is the target unless some step changed its class, and then it is the last such replacement |
| `Engine.IdleStepsKeepTarget` | OpenApiGenerator.php:121-134 | when no extractor runs, nothing is replaced |
| `Engine.JmsBase` | Extraction/Extractor/JmsExtractor.php:101-106 | the parent alias is written only for a child of a discriminator map; the properties are kept |
| `Engine.OpenApiGenerator.constructor` | OpenApiGenerator.php:48-61 | the JSON-document extractor is pre-registered at position -1 in section `swagger`, and nothing is sorted yet |
| `Engine.OpenApiGenerator.RegisterExtractor` | OpenApiGenerator.php:63-66 | registers in the table and leaves the sorted cache as it was |
| `Engine.OpenApiGenerator.GetSortedExtractors` | OpenApiGenerator.php:140-151 | the first call returns the corrected sorted table and caches it; later calls return the cache; the table is unchanged |
| `Engine.OpenApiGenerator.Extract` | OpenApiGenerator.php:111-135 | one step per sorted extractor; an extractor runs exactly when it accepts the target as resolved at that step; the result is the original target or the last class-changing replacement; a target in the registry is left there updated |
| `Engine.OpenApiGenerator.ExtractStep` | OpenApiGenerator.php:123-132 | an extractor runs exactly when it accepts the resolved target; a step that does not run changes neither the target nor the registry; a replacement is a Reference; the class of the original is kept |
| `Engine.OpenApiGenerator.ResolveStep` | OpenApiGenerator.php:124 | the step succeeds exactly when the current target resolves, and its target is the resolved item, whose registry slot is tracked |
| `Engine.OpenApiGenerator.RunExtractor` | OpenApiGenerator.php:126-128 | the extractor keeps the target's class, changes only mutable targets, writes a registry target back at its slot, and any replacement is a Reference |
| `Engine.OpenApiGenerator.ExtractNested` | Extraction/Extractor/TypeSchemaExtractor.php:73-77 | a nested extraction keeps the class of the object handed in and returns it or a Reference |
| `Engine.OpenApiGenerator.ExtractTemporary` | Extraction/Extractor/JmsExtractor.php:173-178 | the caller's temporary schema, in its final state, is a Schema object |
| `Engine.OpenApiGenerator.ExtractTypeSchema` | Extraction/Extractor/TypeSchemaExtractor.php:60-135 | succeeds only for a Schema target and a classifiable type string; the target stays a Schema; it is replaced exactly for an object type, and then by a Reference to the schema reference of the aliased class's definition name; a primitive sets the type and the format when the type has one, and leaves the rest as it was |
| `Engine.OpenApiGenerator.ExtractArrayType` | Extraction/Extractor/TypeSchemaExtractor.php:70-81 | the result is a Schema that holds an `items` schema and keeps its type; without a subtype the items are a new empty Schema and nothing else changes; a registry node is written back at its slot |
| `Engine.OpenApiGenerator.ExtractClassType` | Extraction/Extractor/TypeSchemaExtractor.php:83-130 | afterwards the aliased class's definition name is a key of the registry; a target outside the registry is returned unchanged, and a registry node is written back at its slot; when the merged groups' hash was already recorded, the definition is the one found (or a new object schema) with its `serializerGroups` set to the merged list, and the ledger is unchanged |
| `Engine.OpenApiGenerator.PrepareModel` | Extraction/Extractor/TypeSchemaExtractor.php:94-124 | the definition found (or a new object schema) gets `serializerGroups` set to the previous groups merged with the model context's, and is stored back; the hash of the merged list is looked up and recorded under the alias-applied name |
| `Engine.OpenApiGenerator.ExtractConstraints` | Extraction/Extractor/ConstraintExtractor.php:132-153 | the outcome of the constraint extraction function, with no replacement |
| `Engine.OpenApiGenerator.ExtractJms` | Extraction/Extractor/JmsExtractor.php:83-171 | succeeds only when `canExtract` holds; no replacement; for a target outside the registry, the class schema (with its parent alias) gets one stored property per metadata entry neither skipped nor inherited, in order, under the naming strategy's name, with the metadata's groups, read-only flag and planned type |
| `Engine.OpenApiGenerator.StoreProperties` | Extraction/Extractor/JmsExtractor.php:108-170 | the loop's stored pairs are those of the kept properties, in metadata order |
| `Engine.OpenApiGenerator.ExtractPropertySchema` | Extraction/Extractor/JmsExtractor.php:120-129 | a stdClass plan gives `Schema{type: stdClass}`; an array plan gives an array schema with items |
| `Engine.OpenApiGenerator.ExtractPhpDoc` | Extraction/Extractor/PhpDocOperationExtractor.php:69-182 | succeeds only for a method source and an Operation target, with no replacement; summary, corrected description and deprecation flag follow their rules; request body and custom properties are kept; one response per planned request is written under the status code; parameters keep their number, classes and names |
| `Engine.OpenApiGenerator.WriteResponses` | Extraction/Extractor/PhpDocOperationExtractor.php:86-121 | each planned request writes a response with its description and a schema under the one status code, in order |
| `Engine.OpenApiGenerator.FillFromTags` | Extraction/Extractor/PhpDocOperationExtractor.php:136-181 | the tag loop keeps the parameters' number, classes and names |
| `Engine.OpenApiGenerator.FillFromTag` | Extraction/Extractor/PhpDocOperationExtractor.php:137-180 | the first parameter with the tag's name is filled by the fill rule with the converted type |
| `Engine.OpenApiGenerator.GenerateResponse` | Extraction/Extractor/PhpDocOperationExtractor.php:265-276 | the generated response schema is a Schema object |
| `Engine.OpenApiGenerator.ExtractNew` | OpenApiGenerator.php:113-119 | a fresh document with fresh components is created and extracted into; the result is that document or a Reference |

## Left out

- Recursion depth: the generator's nested calls and the example walker carry a `fuel` bound. A run that exhausts it fails; the source has no such bound, and the walker does not terminate on a cycle through two definitions.
- Partial writes on failure: when an exception is thrown halfway, the model returns the error and does not describe the objects the source had already changed.
- Floating point: the number example `1.2` and the double-typed bounds of Schema are kept as text or not at all.
- md5 and `http_build_query` (TypeSchemaExtractor.php:137-140) are one injective hash of the whole group array, keys included.
- PHP's loose comparisons and conversions are modelled only in part: string truthiness, group names turned to strings, and `null == ""` on parameter names. Two numeric strings are compared as text, where PHP compares them as numbers.
- PhpDocRules.FirstMatch: its name test `PhpDocRules.NameMatches` compares names as exact text, but `==` at PhpDocOperationExtractor.php:143 compares two numeric strings as numbers. PHP takes a parameter named `1` as the match for a `@param` tag on `$01`; the model finds no match, so `Engine.OpenApiGenerator.FillFromTag` adds a second parameter.
- PhpDocRules.FindParameter: its loop equals `PhpDocRules.FirstMatch`, so it has the same gap for numeric-string names.
- PhpDocRules.ShouldSkipType: it uses exact membership, but the loose `in_array` at PhpDocOperationExtractor.php:253 also counts a numerically equal string such as `1e1` for `10` as excluded.
- PHP 8 semantics are assumed. Under PHP 7, `in_array` with a non-array haystack (`Examples.ShouldSkipProperty`, ExamplesGenerator.php:138 and 147) and `array_merge` with a non-array argument (`TypeSchema.MergedGroups`, TypeSchemaExtractor.php:109) emit a warning and return null instead of throwing a TypeError. Under PHP 7, `shouldSkipProperty` with no declared groups and non-array active groups would therefore skip the property rather than fail.
- The JSON-document extractor's deserialization (OpenApiJsonSchemaExtractor.php:48-52) is a foreign library call. Its `canExtract` is modelled, and running it reports "not modelled".
- `validate`, `dump` and serializer construction (OpenApiGenerator.php:48-58, 74-99) are foreign library calls.
- SwaggerTagExtractor.php is annotation-reader glue and is not part of this model.
- Doc-block parsing, reflection, `class_exists`, JMS metadata, the naming and exclusion strategies, validator metadata, `extractConstraint` and the FOSRest view are inputs (records or function parameters) with no behaviour of their own.
- Registry nodes that an extraction moves to another slot, or whose class changes while a caller holds them, are reported as "not modelled" rather than followed.
- Fields of the document other than `openapi`, `components.schemas` and the schema fields listed in `OpenApiSchema.Node` are opaque: a reference walking into them reports "not modelled".
- The custom properties of the root document and of the components object are not modelled. A Reference has none: reading one fails as an undefined method, as in the source.
- A missing doc comment is not modelled: the doc block is always an input record.
- Class-name case: PHP class names are case-insensitive; the model compares them exactly.
- Map order of `onPostSerialize`'s output: the visitor's data is a map, so the order in which `x-` keys are written is not kept.
- The data classes with only validation annotations (SecurityScheme, Link, Header, Info and the others) are not modelled beyond the fields the core reads.
- Engine.OpenApiGenerator.ExtractJms: the stored-properties relation is stated only for a target outside the registry. Deprecation and description are stated on `JmsRules.FinishPropertySchema` and its lemmas, not on the method.
- Engine.OpenApiGenerator.ExtractTypeSchema: the array and object branches state the target's new shape only for a target outside the registry. The hash ledger's effect is stated on `Engine.OpenApiGenerator.PrepareModel`, `TypeSchema.TypeSchemaExtractor.HashExists` and `TypeSchema.AtMostOncePerHash`, not on the method. It classifies with the corrected `TypeSchema.GetPrimitiveType`, so `A[][` is rejected where the code takes it for an array of `A[`; the code's rule is `TypeSchema.GetPrimitiveTypeAsWritten`. It reads and writes custom properties on a Schema as if Schema used the trait (`OpenApiSchema.ReadCustomProperty`); the code as written fails there (`OpenApiSchema.CustomPropertyAsWritten`).
- Engine.OpenApiGenerator.GetSortedExtractors: computes the corrected `ExtractorTable.Sorted`, which keeps every section. The code keeps only the last section; that rule is `ExtractorTable.SortedAsWritten`.
- Engine.OpenApiGenerator.ExtractPhpDoc: applies the corrected `PhpDocRules.DescriptionRule`, which fills an empty description. The code replaces only a non-empty one; that rule is `PhpDocRules.DescriptionAsWritten`.
- Examples.ExampleOf: reads a Schema's `serializerGroups` custom property as if Schema used the trait (`OpenApiSchema.ReadCustomProperty`). The code as written fails on that call (`OpenApiSchema.CustomPropertyAsWritten`).
- Engine.OpenApiGenerator.ExtractClassType: when the merged groups' hash is new, the nested extraction runs and may change the definition; the method then does not state the definition's final state or that the hash is recorded. `Engine.OpenApiGenerator.PrepareModel` states both before the nested extraction.
- Engine.OpenApiGenerator.ExtractArrayType: states that `items` is set, and that it is a new empty Schema when the type names no item type. When it does, `items` is not tied to the nested extraction of that item type with the same context (Extraction/Extractor/TypeSchemaExtractor.php:70-80). The body stores what that extraction returns, but the contract of `Engine.OpenApiGenerator.ExtractNested` fixes only its class, so the relation cannot be stated.
- Engine.OpenApiGenerator.ExtractPropertySchema: for a nested stdClass it states the `stdClass` schema. For another nested type it states only `type: array` with some `items`; for the item's own type it states only that the result is a Schema. Neither result is tied to the extraction of the type (Extraction/Extractor/JmsExtractor.php:120-129), for the reason given under `Engine.OpenApiGenerator.ExtractTemporary`.
- Engine.OpenApiGenerator.ExtractTemporary: states only that the result is a Schema. It does not state that the result is the temporary schema's final state with any returned Reference dropped, which is what the body returns.
- Engine.OpenApiGenerator.GenerateResponse: states only that the result is a Schema. The sub-context with direction `out` is built in the body and is not named in the contract.
- SerializerListener.RoundTripDoublesPrefix: assumes the deserializer stores the collected `customProperties` array on the object. The trait marks that field `@JMS\Exclude()` (Schema/Traits/SpecificationExtension.php:13-18); if the serializer honours it, the collected keys are dropped on reading and nothing is written back.
- Engine.OpenApiGenerator.FillFromTags: states that parameters keep their number, classes and names. The fill rule is stated per tag on `Engine.OpenApiGenerator.FillFromTag`. The body-property branch is stated only through `PhpDocRules.FillPropertyDescription`.
- Engine.OpenApiGenerator.ExtractConstraints: the outcome is tied to the constraint function only when that function keeps the target a Schema. An `extractConstraint` that replaces the class schema is reported as "not modelled".

## Findings

| source | as written | input that shows it | evidently intended | confidence | as-written member | corrected member |
|---|---|---|---|---|---|---|
| OpenApiGenerator.php:146 | each section's list is *assigned* to the sorted list, so only the last section survives | the constructor's JSON extractor (section `swagger`) plus one extractor registered in `default`: only the latter runs | concatenate the sections' lists in order | high, not executed | `ExtractorTable.SortedAsWritten`, `ExtractorTable.AsWrittenDropsFirstSection` | `ExtractorTable.Sorted` |
| Extraction/Extractor/PhpDocOperationExtractor.php:82-84 | the description is overwritten only when it is already non-empty | an operation with no description stays empty; one with a hand-written description loses it | fill the description only when empty, like the summary | high, not executed | `PhpDocRules.DescriptionAsWritten`, `PhpDocRules.DescriptionInverted` | `PhpDocRules.DescriptionRule` |
| Schema/BaseParameter.php:173-180 | the "neither schema nor content" violation fires when schema *or* content is set | a parameter with only a schema is flagged; one with neither passes | fire when both are null | high, not executed | `Parameters.ValidateAsWritten`, `Parameters.AsWrittenFlagsWellFormedParameter` | `Parameters.Validate` |
| JMSSerializerListener.php:77 | `x-` keys are collected into `customProperties` with their prefix, and written back with another `x-` | if the deserializer fills the `@JMS\Exclude()` field `customProperties`: `{"x-foo": "bar"}` is written back as `x-x-foo`; if it honours the annotation, the keys are lost on reading instead | strip the prefix when reading, so that a document survives a round trip | low, not executed | `SerializerListener.PreDeserialize`, `SerializerListener.RoundTripDoublesPrefix` | `SerializerListener.PreDeserializeStripped` |
| Extraction/Extractor/TypeSchemaExtractor.php:165-167 | `str_replace` drops every `[]`, and the check only compares with the text minus its last two characters | `A[][`: both give `A[`, so it classifies as an array of `A[` | accept exactly one trailing `[]` | medium, not executed | `TypeSchema.GetPrimitiveTypeAsWritten`, `TypeSchema.AsWrittenAcceptsMisplacedMarker` | `TypeSchema.GetPrimitiveType` |
| Schema/Schema.php:13 | Schema does not use the SpecificationExtension trait, yet TypeSchemaExtractor.php:107,113 and ExamplesGenerator.php:81,96 read and write its custom properties | any class-typed extraction reaches `getCustomProperty` on a new Schema | Schema uses the trait, as the extensible objects do | high, not executed | `OpenApiSchema.CustomPropertyAsWritten`, `OpenApiSchema.CustomPropertyUnreadable` | `OpenApiSchema.ReadCustomProperty` |
