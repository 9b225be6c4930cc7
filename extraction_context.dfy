// Extraction/ExtractionContext.php: the parameter bag handed through an
// extraction, with the root document and the generator it belongs to. The
// generator's type is a parameter of the class so that this module does not
// depend on the engine that uses it.

module Extraction {
  import opened PhpValues
  import opened Document

  /**
   * The `$source` an extractor is handed: a plain PHP value (a type string,
   * a JSON text, null, ...), a ReflectionClass or a ReflectionMethod, each
   * known by its names.
   */
  datatype Source =
    | SourceValue(v: Value)
    | SourceClass(name: string)
    | SourceMethod(className: string, methodName: string)

  class ExtractionContext<G> {
    const rootSchema: OpenApi
    const swagger: G
    var parameters: map<string, Value>

    /** A new context starts with an empty bag. */
    constructor (generator: G, root: OpenApi)
      ensures swagger == generator && rootSchema == root && parameters == map[]
    {
      swagger := generator;
      rootSchema := root;
      parameters := map[];
    }

    /** `hasParameter`: the key is present, whatever its value (a stored null counts). */
    predicate HasParameter(name: string)
      reads this
    {
      name in parameters
    }

    /** `getParameter`: the stored value when the key is present, else the default. */
    function GetParameter(name: string, default: Value): (v: Value)
      reads this
      ensures HasParameter(name) ==> v == parameters[name]
      ensures !HasParameter(name) ==> v == default
    {
      if HasParameter(name) then parameters[name] else default
    }

    method SetParameter(name: string, value: Value)
      modifies this
      ensures parameters == old(parameters)[name := value]
      ensures HasParameter(name) && GetParameter(name, VNull) == value
    {
      parameters := parameters[name := value];
    }

    method RemoveParameter(name: string)
      modifies this
      ensures parameters == old(parameters) - {name}
      ensures !HasParameter(name)
      ensures forall k, d :: k != name ==> GetParameter(k, d) == old(GetParameter(k, d))
    {
      parameters := parameters - {name};
    }

    /** `setParameters` replaces the whole bag. */
    method SetParameters(bag: map<string, Value>)
      modifies this
      ensures parameters == bag
    {
      parameters := bag;
    }

    /**
     * `createSubContext`, a `clone`: a new object whose bag equals this one's
     * and that shares the root document and the generator. Being a distinct
     * object, later changes to either bag leave the other as it is.
     */
    method CreateSubContext() returns (c: ExtractionContext<G>)
      ensures fresh(c)
      ensures c.parameters == parameters
      ensures c.rootSchema == rootSchema && c.swagger == swagger
    {
      c := new ExtractionContext(swagger, rootSchema);
      c.parameters := parameters;
    }
  }
}
