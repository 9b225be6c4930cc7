// Schema/Components.php and the root Schema/OpenApi.php object: the registry
// of reusable definitions, its naming rule for reference strings, and the
// document that owns it.

module Document {
  import opened Wrappers
  import opened PhpValues
  import opened Strings
  import opened OpenApiSchema
  import SpecificationExtension

  /** `sanitizeReferenceName`: every backslash becomes a slash, then slashes are trimmed from both ends. */
  function Sanitize(name: string): string
  {
    Trim(ReplaceAll(name, "\\", "/"), {'/'})
  }

  const ComponentsKey: string := "components"
  const SchemasKey: string := "schemas"

  /** The prefix of every schema reference, `#/components/schemas/`. */
  const SchemasPrefix: string := "#/" + ComponentsKey + "/" + SchemasKey + "/"

  /** `getSchemaReference`. */
  function SchemaReference(name: string): (r: string)
    ensures StartsWith(r, SchemasPrefix) && r[|SchemasPrefix|..] == Sanitize(name)
  {
    SchemasPrefix + Sanitize(name)
  }

  /** A sanitized name holds no backslash and neither starts nor ends with a slash. */
  lemma SanitizeShape(name: string)
    ensures '\\' !in Sanitize(name)
    ensures Sanitize(name) != [] ==> Sanitize(name)[0] != '/' && Sanitize(name)[|Sanitize(name)| - 1] != '/'
  {
    var replaced := ReplaceAll(name, "\\", "/");
    ReplaceCharRemoves(name, '\\', '/');
    TrimKeepsAbsent(replaced, {'/'}, '\\');
    TrimEdges(replaced, {'/'});
  }

  /** Trimming never brings in a character that was not there. */
  lemma TrimKeepsAbsent(s: string, chars: set<char>, c: char)
    requires c !in s
    ensures c !in Trim(s, chars)
  {
    var l := LTrim(s, chars);
    assert c !in l by {
      forall k | 0 <= k < |l|
        ensures l[k] != c
      {
        assert l[k] == s[|s| - |l| + k];
      }
    }
    var r := RTrim(l, chars);
    forall k | 0 <= k < |r|
      ensures r[k] != c
    {
      assert r[k] == l[k];
    }
    assert Trim(s, chars) == r;
  }

  /** A trimmed string neither starts nor ends with a trimmed character. */
  lemma TrimEdges(s: string, chars: set<char>)
    ensures var t := Trim(s, chars); t != [] ==> t[0] !in chars && t[|t| - 1] !in chars
  {
    var l := LTrim(s, chars);
    var r := RTrim(l, chars);
    if r != [] {
      assert r[0] == l[0];
    }
  }

  lemma {:induction false} AbsentCharNotContained(s: string, c: char)
    requires c !in s
    ensures !Contains(s, [c])
    decreases |s|
  {
    if s != [] {
      assert s[0] != c;
      assert c !in s[1..];
      AbsentCharNotContained(s[1..], c);
    }
  }

  /** Sanitizing a sanitized name changes nothing. */
  lemma SanitizeIdempotent(name: string)
    ensures Sanitize(Sanitize(name)) == Sanitize(name)
  {
    var once := Sanitize(name);
    SanitizeShape(name);
    AbsentCharNotContained(once, '\\');
    ReplaceAllAbsent(once, "\\", "/");
    assert ReplaceAll(once, "\\", "/") == once;
    assert LTrim(once, {'/'}) == once;
    assert RTrim(once, {'/'}) == once;
  }

  /** A name without backslashes and edge slashes is its own sanitized form. */
  lemma SanitizeFixed(name: string)
    requires '\\' !in name
    requires name != [] ==> name[0] != '/' && name[|name| - 1] != '/'
    ensures Sanitize(name) == name
  {
    AbsentCharNotContained(name, '\\');
    ReplaceAllAbsent(name, "\\", "/");
    assert ReplaceAll(name, "\\", "/") == name;
    assert LTrim(name, {'/'}) == name;
    assert RTrim(name, {'/'}) == name;
  }

  /** The reference built from a sanitized name equals the one built from the raw name. */
  lemma ReferenceOfSanitized(name: string)
    ensures SchemaReference(Sanitize(name)) == SchemaReference(name)
  {
    SanitizeIdempotent(name);
  }

  /** Schema\Components: the maps of reusable objects, keyed by name. */
  class Components {
    var schemas: map<string, Node>
    var responses: map<string, Response>
    var parameters: map<string, Parameter>
    var examples: map<string, Value>
    var requestBodies: map<string, RequestBody>
    var headers: map<string, Value>
    var securitySchemes: map<string, Value>
    var links: map<string, Value>
    var callbacks: map<string, Value>
    var customProperties: SpecificationExtension.CustomProperties

    /** Every map starts empty. */
    constructor ()
      ensures schemas == map[] && responses == map[] && parameters == map[] && examples == map[]
      ensures requestBodies == map[] && headers == map[] && securitySchemes == map[] && links == map[]
      ensures callbacks == map[] && customProperties == map[]
    {
      schemas := map[];
      responses := map[];
      parameters := map[];
      examples := map[];
      requestBodies := map[];
      headers := map[];
      securitySchemes := map[];
      links := map[];
      callbacks := map[];
      customProperties := map[];
    }

    /** `hasSchema`: the sanitized name is a key of `schemas`. */
    predicate HasSchema(name: string)
      reads this
    {
      Sanitize(name) in schemas
    }

    /**
     * `addSchema`: stores the schema under the sanitized name, replacing any
     * earlier entry, and returns the reference to it; nothing else changes.
     */
    method AddSchema(name: string, schema: Node) returns (ref: string)
      modifies this
      ensures schemas == old(schemas)[Sanitize(name) := schema]
      ensures HasSchema(name) && schemas[Sanitize(name)] == schema
      ensures ref == SchemaReference(name)
      ensures responses == old(responses) && parameters == old(parameters) && examples == old(examples)
      ensures requestBodies == old(requestBodies) && headers == old(headers)
      ensures securitySchemes == old(securitySchemes) && links == old(links) && callbacks == old(callbacks)
      ensures customProperties == old(customProperties)
    {
      var sanitized := Sanitize(name);
      ReferenceOfSanitized(name);
      ref := SchemaReference(sanitized);
      schemas := schemas[sanitized := schema];
      assert sanitized in schemas;
    }
  }

  /** Schema\OpenApi, the root document. Its version string is fixed at "3.0.0". */
  class OpenApi {
    const openapi: string
    const components: Components
    var paths: seq<(string, PathItem)>

    /** The constructor creates the components registry. */
    constructor ()
      ensures openapi == "3.0.0" && paths == []
      ensures fresh(components)
      ensures components.schemas == map[]
    {
      openapi := "3.0.0";
      paths := [];
      components := new Components();
    }
  }
}
