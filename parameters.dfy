// Schema/BaseParameter.php: the field defaults of a parameter and its
// `validate` callback, modelled as a function returning the violations it
// would add, in order.

module Parameters {
  import opened Wrappers
  import opened PhpValues
  import opened OpenApiSchema

  datatype Violation = Violation(message: string, atPath: string)

  const BothSchemaAndContent: Violation :=
    Violation("A parameter MUST contain either a schema property, or a content property, but not both.", "schema")
  const NeitherSchemaNorContent: Violation :=
    Violation("A parameter doesn't contain no schema property nor content property. One of these parameters should be present.", "schema")
  const ExampleAndExamples: Violation :=
    Violation("The example object is mutually exclusive of the examples object, but both are defined.", "example")

  /** A parameter of the given concrete class as constructed: defaults of BaseParameter. */
  function NewParameter(className: string): (p: Parameter)
    ensures p.className == className
    ensures !p.required && !p.deprecated && p.examples == VArr([])
    ensures p.schema.None? && p.content.None? && p.example == VNull
  {
    Parameter(className, None, None, None, false, false, None, None, VNull, VArr([]), map[])
  }

  /** `example !== null && empty(examples) === false`. */
  predicate ExampleClash(p: Parameter)
  {
    p.example != VNull && Truthy(p.examples)
  }

  /** `validate` as written: the second check fires when schema OR content is set. */
  function ValidateAsWritten(p: Parameter): (r: seq<Violation>)
    ensures BothSchemaAndContent in r <==> p.schema.Some? && p.content.Some?
    ensures NeitherSchemaNorContent in r <==> p.schema.Some? || p.content.Some?
    ensures ExampleAndExamples in r <==> ExampleClash(p)
    ensures |r| <= 3
  {
    (if p.schema.Some? && p.content.Some? then [BothSchemaAndContent] else [])
    + (if p.schema.Some? || p.content.Some? then [NeitherSchemaNorContent] else [])
    + (if ExampleClash(p) then [ExampleAndExamples] else [])
  }

  /** `validate` with the second check as its message states it: neither schema nor content. */
  function Validate(p: Parameter): (r: seq<Violation>)
    ensures BothSchemaAndContent in r <==> p.schema.Some? && p.content.Some?
    ensures NeitherSchemaNorContent in r <==> p.schema.None? && p.content.None?
    ensures ExampleAndExamples in r <==> ExampleClash(p)
    ensures |r| <= 2
  {
    (if p.schema.Some? && p.content.Some? then [BothSchemaAndContent] else [])
    + (if p.schema.None? && p.content.None? then [NeitherSchemaNorContent] else [])
    + (if ExampleClash(p) then [ExampleAndExamples] else [])
  }

  /** A parameter passes validation exactly when it has one of schema and content and no example clash. */
  lemma ValidIffExactlyOneOfSchemaAndContent(p: Parameter)
    ensures Validate(p) == [] <==> (p.schema.Some? != p.content.Some?) && !ExampleClash(p)
  {
    if Validate(p) == [] {
      assert BothSchemaAndContent !in Validate(p) && NeitherSchemaNorContent !in Validate(p);
    }
  }

  /** As written, a parameter with a schema and no content, the well-formed case, draws the "neither" violation. */
  lemma AsWrittenFlagsWellFormedParameter(s: Node)
    ensures ValidateAsWritten(NewParameter("QueryParameter").(schema := Some(s))) == [NeitherSchemaNorContent]
    ensures Validate(NewParameter("QueryParameter").(schema := Some(s))) == []
  {
  }

  /** As written, a parameter with neither schema nor content, the case the message names, passes. */
  lemma AsWrittenMissesEmptyParameter()
    ensures ValidateAsWritten(NewParameter("QueryParameter")) == []
    ensures Validate(NewParameter("QueryParameter")) == [NeitherSchemaNorContent]
  {
  }
}
