// The document objects the extraction engine reads and writes, as values:
// Schema/Schema.php and Schema/Reference.php (one `Node` datatype),
// Schema/Operation.php, Schema/RequestBody.php, Schema/Response.php,
// Schema/MediaType.php, Schema/BaseParameter.php and Schema/PathItem.php.
// Only the fields some modelled rule touches are kept.

module OpenApiSchema {
  import opened Wrappers
  import opened PhpValues
  import SpecificationExtension

  type CustomProperties = SpecificationExtension.CustomProperties

  /**
   * A schema node: a Reference Object, or a Schema Object with the fields the
   * extractors and the example walker use. `properties` is a PHP array
   * (ordered, keyed by property name); `serializerGroups` is the declared
   * field written by the JMS extractor, `customProperties` the separate
   * custom-property map that holds the merged "serializerGroups" list.
   */
  datatype Node =
    | Reference(ref: string)
    | Schema(
        typeName: Option<string>,
        format: Option<string>,
        description: Option<string>,
        items: Option<Node>,
        allOf: Option<seq<Node>>,
        properties: Option<seq<(string, Node)>>,
        readOnly: bool,
        serializerGroups: Option<seq<string>>,
        parentAlias: Option<string>,
        deprecated: bool,
        deprecationDescription: Option<string>,
        customProperties: CustomProperties)

  /** `new Schema()`: every field at its declared default. */
  const EmptySchema: Node :=
    Schema(None, None, None, None, None, None, false, None, None, false, None, map[])

  /** `get_class($node)`, without the namespace. */
  function ClassOf(n: Node): string
  {
    if n.Reference? then "Reference" else "Schema"
  }

  type Properties = seq<(string, Node)>

  /**
   * The value of a Schema's custom property with the trait in use (null
   * when absent). A Reference has no custom properties: reads that can meet
   * one go through `ReadCustomProperty`.
   */
  function CustomPropertyOf(n: Node, key: string): Value
  {
    if n.Schema? then SpecificationExtension.Lookup(n.customProperties, key) else VNull
  }

  /**
   * `$node->getCustomProperty($key)` with the trait in use on Schema, the
   * correction the extractors and the walker rely on. Reference still
   * declares no such method, so on a Reference the call fails exactly as
   * declared.
   */
  function ReadCustomProperty(n: Node, key: string): (r: Result<Value>)
    ensures r.Success? <==> n.Schema?
    ensures r.Success? ==> r.value == CustomPropertyOf(n, key)
    ensures r.Failure? ==> r == CustomPropertyAsWritten(n, key)
  {
    if n.Schema? then Success(SpecificationExtension.Lookup(n.customProperties, key))
    else CustomPropertyAsWritten(n, key)
  }

  /**
   * `$node->getCustomProperty($key)` against the classes as declared: neither
   * Schema nor Reference uses the SpecificationExtension trait, so the call
   * is to an undefined method.
   */
  function CustomPropertyAsWritten(n: Node, key: string): (r: Result<Value>)
    ensures r.Failure? && r.error.EngineError?
  {
    Failure(EngineError("Call to undefined method " + ClassOf(n) + "::getCustomProperty()"))
  }

  /**
   * The read the extractors and the example walker rely on never succeeds as
   * declared, whatever the node holds; `CustomPropertyOf` is the read with
   * the trait in use.
   */
  lemma CustomPropertyUnreadable(n: Node, key: string, v: Value)
    ensures CustomPropertyAsWritten(n, key) != Success(v)
    ensures n.Schema? ==> CustomPropertyOf(WithCustomProperty(n, key, v), key) == v
  {
  }

  /** `$node->setCustomProperty($key, $v)` on a Schema. */
  function WithCustomProperty(n: Node, key: string, v: Value): (r: Node)
    requires n.Schema?
    ensures r.Schema? && CustomPropertyOf(r, key) == v
    ensures forall k :: k != key ==> CustomPropertyOf(r, k) == CustomPropertyOf(n, k)
    ensures r.(customProperties := n.customProperties) == n
  {
    n.(customProperties := n.customProperties[key := v])
  }

  datatype MediaType = MediaType(schema: Option<Node>, example: Value)

  /** A PHP array of media types keyed by content type, in insertion order. */
  type Content = seq<(string, MediaType)>

  /**
   * A response. `schema` is the property the PhpDoc extractor assigns
   * although Response does not declare it; `content` is null until set.
   */
  datatype Response = Response(description: Option<string>, schema: Option<Node>, content: Option<Content>)

  datatype RequestBody = RequestBody(description: string, content: Option<Content>, required: bool, customProperties: CustomProperties)

  /**
   * A parameter object. `className` is its concrete class (QueryParameter,
   * PathParameter, BodyParameter, ...); `typeName` is the `type` property PhpDoc writes
   * on it although BaseParameter does not declare it.
   */
  datatype Parameter = Parameter(
    className: string,
    name: Option<string>,
    description: Option<string>,
    typeName: Option<string>,
    required: bool,
    deprecated: bool,
    schema: Option<Node>,
    content: Option<Content>,
    example: Value,
    examples: Value,
    customProperties: CustomProperties)

  datatype Operation = Operation(
    summary: Option<string>,
    description: Option<string>,
    parameters: seq<Parameter>,
    requestBody: Option<RequestBody>,
    responses: seq<(Key, Response)>,
    deprecated: bool,
    customProperties: CustomProperties)

  /** `new Operation()`. */
  const EmptyOperation: Operation := Operation(None, None, [], None, [], false, map[])

  datatype PathItem = PathItem(
    get: Option<Operation>,
    put: Option<Operation>,
    post: Option<Operation>,
    delete: Option<Operation>,
    options: Option<Operation>,
    head: Option<Operation>,
    patch: Option<Operation>,
    trace: Option<Operation>)

  /** PHP string truthiness of a nullable string field (`if ($op->summary)`). */
  predicate TruthyString(s: Option<string>)
  {
    s.Some? && s.value != "" && s.value != "0"
  }
}
