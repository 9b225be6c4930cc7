// OpenApiGenerator::resolveReference (OpenApiGenerator.php:166-185): a
// Reference's `$ref` has its leading '#' and '/' characters stripped, is
// split on '/', and each part is looked up in the current item, by key in a
// PHP array or by declared field in an object, starting from the root
// document. This is the URI-fragment form of a JSON Pointer (sections 4 and 6
// of RFC 6901) without the "~0"/"~1" unescaping.

module References {
  import opened Wrappers
  import opened PhpValues
  import opened Strings
  import opened OpenApiSchema
  import opened Document

  // ---------------------------------------------------------------------
  // Positions of a node inside the schema registry

  /** One step from a schema node to a node it holds. */
  datatype Step = IntoItems | IntoAllOf(index: nat) | IntoProperty(name: string)

  /** `components.schemas[definition]`, then the steps of `path`. */
  datatype Slot = Slot(definition: string, path: seq<Step>)

  /** The node found by following `path` from `n`, if every step exists. */
  function NodeAt(n: Node, path: seq<Step>): Option<Node>
    decreases |path|
  {
    if path == [] then Some(n)
    else if !n.Schema? then None
    else match path[0]
      case IntoItems =>
        if n.items.Some? then NodeAt(n.items.value, path[1..]) else None
      case IntoAllOf(i) =>
        if n.allOf.Some? && i < |n.allOf.value| then NodeAt(n.allOf.value[i], path[1..]) else None
      case IntoProperty(p) =>
        if n.properties.Some? && ArrGet(n.properties.value, p).Some?
        then NodeAt(ArrGet(n.properties.value, p).value, path[1..])
        else None
  }

  /** `n` with the node at `path` replaced by `x`. */
  function NodePut(n: Node, path: seq<Step>, x: Node): Node
    requires NodeAt(n, path).Some?
    decreases |path|
  {
    if path == [] then x
    else match path[0]
      case IntoItems =>
        n.(items := Some(NodePut(n.items.value, path[1..], x)))
      case IntoAllOf(i) =>
        n.(allOf := Some(n.allOf.value[i := NodePut(n.allOf.value[i], path[1..], x)]))
      case IntoProperty(p) =>
        var props := n.properties.value;
        n.(properties := Some(ArrPut(props, p, NodePut(ArrGet(props, p).value, path[1..], x))))
  }

  /** Reading the position just written gives the written node. */
  lemma {:induction false} NodeAtPut(n: Node, path: seq<Step>, x: Node)
    requires NodeAt(n, path).Some?
    ensures NodeAt(NodePut(n, path, x), path) == Some(x)
    decreases |path|
  {
    if path != [] {
      var rest := path[1..];
      match path[0]
      case IntoItems =>
        NodeAtPut(n.items.value, rest, x);
      case IntoAllOf(i) =>
        NodeAtPut(n.allOf.value[i], rest, x);
      case IntoProperty(p) =>
        var props := n.properties.value;
        var inner := NodePut(ArrGet(props, p).value, rest, x);
        NodeAtPut(ArrGet(props, p).value, rest, x);
        GetAfterPut(props, p, inner);
    }
  }

  /** The node registered at a slot. */
  function SlotNode(schemas: map<string, Node>, s: Slot): Option<Node>
  {
    if s.definition in schemas then NodeAt(schemas[s.definition], s.path) else None
  }

  /** The registry with the node at slot `s` replaced by `x`. */
  function SlotPut(schemas: map<string, Node>, s: Slot, x: Node): (r: map<string, Node>)
    requires SlotNode(schemas, s).Some?
    ensures r.Keys == schemas.Keys
    ensures SlotNode(r, s) == Some(x)
    ensures forall d :: d in schemas && d != s.definition ==> r[d] == schemas[d]
  {
    NodeAtPut(schemas[s.definition], s.path, x);
    schemas[s.definition := NodePut(schemas[s.definition], s.path, x)]
  }

  // ---------------------------------------------------------------------
  // The walk

  /** What resolution reads of the root document. */
  datatype DocView = DocView(openapi: string, schemas: map<string, Node>)

  function ViewOf(root: OpenApi): DocView
    reads root.components
  {
    DocView(root.openapi, root.components.schemas)
  }

  /**
   * The item the walk stands on (`$currentItem`). Nodes and node arrays
   * remember where they sit in the registry; the object fields this model
   * does not keep lead to `AtOpaque`.
   */
  datatype Cursor =
    | AtRoot
    | AtComponents
    | AtSchemas
    | AtNode(node: Node, slot: Slot)
    | AtProperties(props: Properties, owner: Slot)
    | AtAllOf(list: seq<Node>, owner: Slot)
    | AtValue(v: Value)
    | AtOpaque(field: string)

  const RootOpaqueFields: set<string> := {"info", "servers", "paths", "security", "tags", "externalDocs"}
  const ComponentsOpaqueFields: set<string> :=
    {"responses", "parameters", "examples", "requestBodies", "headers", "securitySchemes", "links", "callbacks"}
  /** Declared Schema fields whose content this model does not keep. */
  const SchemaOpaqueFields: set<string> :=
    {"title", "default", "maximum", "exclusiveMaximum", "minimum", "exclusiveMinimum", "maxLength",
     "minLength", "pattern", "maxItems", "minItems", "uniqueItems", "maxProperties", "minProperties",
     "required", "enum", "additionalProperties", "xml", "externalDocs", "example", "ref"}

  function NotFound<T>(ref: string): Result<T>
  {
    Failure(ExtractionImpossible("Reference " + ref + " not found."))
  }

  /** The private field of the SpecificationExtension trait exists but cannot be read from the generator. */
  function PrivateField<T>(): Result<T>
  {
    Failure(EngineError("Cannot access private property customProperties"))
  }

  /** `get_class` of something that is not an object. */
  function NotAnObject<T>(): Result<T>
  {
    Failure(EngineError("get_class(): Argument #1 ($object) must be of type object"))
  }

  function OptString(s: Option<string>): Value
  {
    if s.Some? then VStr(s.value) else VNull
  }

  function StringList(l: seq<string>): Value
  {
    VArr(seq(|l|, i requires 0 <= i < |l| => (IntKey(i), VStr(l[i]))))
  }

  /** The key PHP uses for a string offset: a canonical decimal becomes an integer key. */
  function PhpKey(part: string): Key
  {
    var n := ParseCanonicalNat(part);
    if n.Some? then IntKey(n.value) else StrKey(part)
  }

  /** One iteration of the walk: `$currentItem[$part]` or `$currentItem->{$part}`. */
  function StepInto(view: DocView, c: Cursor, part: string, ref: string): Result<Cursor>
  {
    match c
    case AtRoot =>
      if part == "components" then Success(AtComponents)
      else if part == "openapi" then Success(AtValue(VStr(view.openapi)))
      else if part in RootOpaqueFields then Success(AtOpaque(part))
      else if part == "customProperties" then PrivateField()
      else NotFound(ref)
    case AtComponents =>
      if part == "schemas" then Success(AtSchemas)
      else if part in ComponentsOpaqueFields then Success(AtOpaque(part))
      else if part == "customProperties" then PrivateField()
      else NotFound(ref)
    case AtSchemas =>
      // a missing key reads as null
      if part in view.schemas then Success(AtNode(view.schemas[part], Slot(part, [])))
      else Success(AtValue(VNull))
    case AtNode(n, s) =>
      if n.Reference? then
        (if part == "ref" then Success(AtValue(VStr(n.ref))) else NotFound(ref))
      else if part == "items" then
        (if n.items.Some? then Success(AtNode(n.items.value, Slot(s.definition, s.path + [IntoItems])))
         else Success(AtValue(VNull)))
      else if part == "allOf" then
        (if n.allOf.Some? then Success(AtAllOf(n.allOf.value, s)) else Success(AtValue(VNull)))
      else if part == "properties" then
        (if n.properties.Some? then Success(AtProperties(n.properties.value, s)) else Success(AtValue(VNull)))
      else if part == "type" then Success(AtValue(OptString(n.typeName)))
      else if part == "format" then Success(AtValue(OptString(n.format)))
      else if part == "description" then Success(AtValue(OptString(n.description)))
      else if part == "parentAlias" then Success(AtValue(OptString(n.parentAlias)))
      else if part == "deprecationDescription" then Success(AtValue(OptString(n.deprecationDescription)))
      else if part == "readOnly" then Success(AtValue(VBool(n.readOnly)))
      else if part == "deprecated" then Success(AtValue(VBool(n.deprecated)))
      else if part == "serializerGroups" then
        Success(AtValue(if n.serializerGroups.Some? then StringList(n.serializerGroups.value) else VNull))
      else if part in SchemaOpaqueFields then Success(AtOpaque(part))
      else if part == "customProperties" then PrivateField()
      else NotFound(ref)
    case AtProperties(props, s) =>
      var p := ArrGet(props, part);
      if p.Some? then Success(AtNode(p.value, Slot(s.definition, s.path + [IntoProperty(part)])))
      else Success(AtValue(VNull))
    case AtAllOf(list, s) =>
      var i := ParseCanonicalNat(part);
      if i.Some? && i.value < |list| then Success(AtNode(list[i.value], Slot(s.definition, s.path + [IntoAllOf(i.value)])))
      else Success(AtValue(VNull))
    case AtValue(v) =>
      if v.VArr? then
        var e := ArrGet(v.entries, PhpKey(part));
        Success(AtValue(if e.Some? then e.value else VNull))
      else NotAnObject()
    case AtOpaque(f) =>
      Failure(NotModelled("the content of field " + f))
  }

  /** The loop over the parts, stopping at the first failure. */
  function Walk(view: DocView, c: Cursor, parts: seq<string>, ref: string): Result<Cursor>
    decreases |parts|
  {
    if parts == [] then Success(c)
    else
      var next :- StepInto(view, c, parts[0], ref);
      Walk(view, next, parts[1..], ref)
  }

  /** `explode('/', ltrim($ref, '#/'))`. */
  function PathParts(ref: string): seq<string>
  {
    Explode('/', LTrim(ref, {'#', '/'}))
  }

  // ---------------------------------------------------------------------
  // Targets and resolution

  /**
   * A target handed to the generator: a schema node, an operation, the root
   * document, the registry object, a PHP array holding nodes (its content is
   * not kept), or a plain value.
   */
  datatype Item =
    | ItemNode(node: Node)
    | ItemOperation(op: Operation)
    | ItemDocument
    | ItemComponents
    | ItemNodeArray
    | ItemData(v: Value)

  predicate IsObject(i: Item)
  {
    !(i.ItemNodeArray? || i.ItemData?)
  }

  predicate IsReference(i: Item)
  {
    i.ItemNode? && i.node.Reference?
  }

  /** What resolution returns, and for a node of the registry, where it sits. */
  datatype Resolved = Resolved(item: Item, slot: Option<Slot>)

  function ItemOf(c: Cursor): Result<Resolved>
  {
    match c
    case AtRoot => Success(Resolved(ItemDocument, None))
    case AtComponents => Success(Resolved(ItemComponents, None))
    case AtSchemas => Success(Resolved(ItemNodeArray, None))
    case AtNode(n, s) => Success(Resolved(ItemNode(n), Some(s)))
    case AtProperties(_, _) => Success(Resolved(ItemNodeArray, None))
    case AtAllOf(_, _) => Success(Resolved(ItemNodeArray, None))
    case AtValue(v) => Success(Resolved(ItemData(v), None))
    case AtOpaque(f) => Failure(NotModelled("the content of field " + f))
  }

  /** `resolveReference($target, $rootSchema)`. A target that is not a Reference comes back unchanged. */
  function Resolve(view: DocView, target: Item): Result<Resolved>
  {
    if !IsReference(target) then Success(Resolved(target, None))
    else
      ResolveParts(view, PathParts(target.node.ref), target.node.ref)
  }

  /** The walk over the parts of `ref` from the root document, and the item it ends on. */
  function ResolveParts(view: DocView, parts: seq<string>, ref: string): Result<Resolved>
  {
    var c :- Walk(view, AtRoot, parts, ref);
    ItemOf(c)
  }

  /** The loop of `resolveReference`, walking `$currentItem` part by part. */
  method ResolveReference(target: Item, root: OpenApi) returns (r: Result<Resolved>)
    ensures r == Resolve(ViewOf(root), target)
  {
    if !IsReference(target) {
      return Success(Resolved(target, None));
    }
    var view := ViewOf(root);
    var ref := target.node.ref;
    var parts := PathParts(ref);
    var current := AtRoot;
    var i := 0;
    while i < |parts|
      invariant 0 <= i <= |parts|
      invariant Walk(view, AtRoot, parts, ref) == Walk(view, current, parts[i..], ref)
    {
      var next := StepInto(view, current, parts[i], ref);
      assert parts[i..][1..] == parts[i + 1..];
      if next.Failure? {
        return Failure(next.error);
      }
      current := next.value;
      i := i + 1;
    }
    r := ItemOf(current);
  }

  // ---------------------------------------------------------------------
  // Properties of the walk

  /** Every node, property array and allOf list the walk stands on is the one its slot names. */
  predicate CursorSound(view: DocView, c: Cursor)
  {
    match c
    case AtNode(n, s) => SlotNode(view.schemas, s) == Some(n)
    case AtProperties(props, s) =>
      var o := SlotNode(view.schemas, s);
      o.Some? && o.value.Schema? && o.value.properties == Some(props)
    case AtAllOf(list, s) =>
      var o := SlotNode(view.schemas, s);
      o.Some? && o.value.Schema? && o.value.allOf == Some(list)
    case _ => true
  }

  lemma {:induction false} NodeAtSnoc(n: Node, path: seq<Step>, st: Step)
    requires NodeAt(n, path).Some?
    ensures NodeAt(n, path + [st]) == NodeAt(NodeAt(n, path).value, [st])
    decreases |path|
  {
    if path != [] {
      assert (path + [st])[0] == path[0];
      assert (path + [st])[1..] == path[1..] + [st];
      var m := n;
      match path[0]
      case IntoItems => NodeAtSnoc(n.items.value, path[1..], st);
      case IntoAllOf(i) => NodeAtSnoc(n.allOf.value[i], path[1..], st);
      case IntoProperty(p) => NodeAtSnoc(ArrGet(n.properties.value, p).value, path[1..], st);
    }
  }

  lemma StepSound(view: DocView, c: Cursor, part: string, ref: string)
    requires CursorSound(view, c)
    requires StepInto(view, c, part, ref).Success?
    ensures CursorSound(view, StepInto(view, c, part, ref).value)
  {
    match c
    case AtNode(n, s) => StepSoundItems(view, n, s, part, ref);
    case AtProperties(props, s) => StepSoundProperty(view, props, s, part, ref);
    case AtAllOf(list, s) => StepSoundAllOf(view, list, s, part, ref);
    case _ =>
  }

  lemma StepSoundItems(view: DocView, n: Node, s: Slot, part: string, ref: string)
    requires CursorSound(view, AtNode(n, s))
    requires StepInto(view, AtNode(n, s), part, ref).Success?
    ensures CursorSound(view, StepInto(view, AtNode(n, s), part, ref).value)
  {
    if n.Schema? && part == "items" && n.items.Some? {
      NodeAtSnoc(view.schemas[s.definition], s.path, IntoItems);
      assert NodeAt(n, [IntoItems]) == NodeAt(n.items.value, []);
    }
  }

  lemma StepSoundProperty(view: DocView, props: Properties, s: Slot, part: string, ref: string)
    requires CursorSound(view, AtProperties(props, s))
    requires StepInto(view, AtProperties(props, s), part, ref).Success?
    ensures CursorSound(view, StepInto(view, AtProperties(props, s), part, ref).value)
  {
    if ArrGet(props, part).Some? {
      NodeAtSnoc(view.schemas[s.definition], s.path, IntoProperty(part));
      var o := SlotNode(view.schemas, s).value;
      assert NodeAt(o, [IntoProperty(part)]) == NodeAt(ArrGet(props, part).value, []);
    }
  }

  lemma StepSoundAllOf(view: DocView, list: seq<Node>, s: Slot, part: string, ref: string)
    requires CursorSound(view, AtAllOf(list, s))
    requires StepInto(view, AtAllOf(list, s), part, ref).Success?
    ensures CursorSound(view, StepInto(view, AtAllOf(list, s), part, ref).value)
  {
    var next := StepInto(view, AtAllOf(list, s), part, ref).value;
    if next.AtNode? {
      var i := ParseCanonicalNat(part).value;
      NodeAtSnoc(view.schemas[s.definition], s.path, IntoAllOf(i));
      var o := SlotNode(view.schemas, s).value;
      assert NodeAt(o, [IntoAllOf(i)]) == NodeAt(list[i], []);
    }
  }

  lemma {:induction false} WalkSound(view: DocView, c: Cursor, parts: seq<string>, ref: string)
    requires CursorSound(view, c)
    requires Walk(view, c, parts, ref).Success?
    ensures CursorSound(view, Walk(view, c, parts, ref).value)
    decreases |parts|
  {
    if parts != [] {
      StepSound(view, c, parts[0], ref);
      WalkSound(view, StepInto(view, c, parts[0], ref).value, parts[1..], ref);
    }
  }

  /**
   * A node that resolution reaches sits in the registry at the slot it
   * reports, so writing the slot back updates exactly that node.
   */
  lemma ResolvedSlotHoldsNode(view: DocView, target: Item)
    requires Resolve(view, target).Success? && Resolve(view, target).value.slot.Some?
    ensures var r := Resolve(view, target).value;
      r.item.ItemNode? && SlotNode(view.schemas, r.slot.value) == Some(r.item.node)
  {
    var ref := target.node.ref;
    WalkSound(view, AtRoot, PathParts(ref), ref);
  }

  /** A target that is not a Reference is returned unchanged. */
  lemma ResolveNonReference(view: DocView, target: Item)
    requires !IsReference(target)
    ensures Resolve(view, target) == Success(Resolved(target, None))
  {
  }

  lemma StripFragment(x: string)
    requires x == [] || x[0] !in {'#', '/'}
    ensures LTrim("#/" + x, {'#', '/'}) == x
  {
    var s := "#/" + x;
    assert s[0] == '#';
  }

  /** The path after the fragment marker splits into its two keys and the name. */
  lemma SplitRegistryPath(s: string)
    requires '/' !in s
    ensures Explode('/', ComponentsKey + "/" + (SchemasKey + "/" + s)) == [ComponentsKey, SchemasKey, s]
  {
    assert '/' !in ComponentsKey && '/' !in SchemasKey;
    ExplodeThree('/', ComponentsKey, SchemasKey, s);
  }

  lemma ExplodeThree(d: char, a: string, b: string, c: string)
    requires d !in a && d !in b && d !in c
    ensures Explode(d, a + [d] + (b + [d] + c)) == [a, b, c]
  {
    ExplodeNoDelimiter(d, c);
    ExplodeCons(d, b, c);
    ExplodeCons(d, a, b + [d] + c);
  }

  lemma PrefixSplit<T>(h: seq<T>, c: seq<T>, sl: seq<T>, sc: seq<T>, s: seq<T>)
    ensures h + c + sl + sc + sl + s == h + (c + sl + (sc + sl + s))
  {
    assert h + c + sl + sc + sl + s == h + (c + sl + sc + sl + s);
    assert c + sl + sc + sl + s == c + sl + (sc + sl + s);
  }

  /** The parts of a registry reference: "components", "schemas", then the name. */
  lemma RegistryReferenceParts(s: string)
    requires '/' !in s
    ensures PathParts(SchemasPrefix + s) == ["components", "schemas", s]
  {
    var x := ComponentsKey + "/" + (SchemasKey + "/" + s);
    PrefixSplit("#/", ComponentsKey, "/", SchemasKey, s);
    assert x[0] == ComponentsKey[0] == 'c';
    StripFragment(x);
    SplitRegistryPath(s);
  }

  lemma WalkRegistryPath(view: DocView, s: string, ref: string, parts: seq<string>)
    requires parts == ["components", "schemas", s]
    ensures Walk(view, AtRoot, parts, ref)
      == Success(if s in view.schemas then AtNode(view.schemas[s], Slot(s, [])) else AtValue(VNull))
  {
    assert StepInto(view, AtRoot, "components", ref) == Success(AtComponents);
    assert StepInto(view, AtComponents, "schemas", ref) == Success(AtSchemas);
    assert parts[1..] == ["schemas", s] && parts[1..][1..] == [s] && [s][1..] == [];
    assert Walk(view, AtRoot, parts, ref) == Walk(view, AtComponents, ["schemas", s], ref);
    assert Walk(view, AtComponents, ["schemas", s], ref) == Walk(view, AtSchemas, [s], ref);
    var next := if s in view.schemas then AtNode(view.schemas[s], Slot(s, [])) else AtValue(VNull);
    assert StepInto(view, AtSchemas, s, ref) == Success(next);
    assert Walk(view, AtSchemas, [s], ref) == Walk(view, next, [], ref);
  }

  lemma ResolveRegistryReference(view: DocView, s: string)
    requires '/' !in s
    ensures var r := Resolve(view, ItemNode(Reference(SchemasPrefix + s)));
      (s in view.schemas ==> r == Success(Resolved(ItemNode(view.schemas[s]), Some(Slot(s, [])))))
      && (s !in view.schemas ==> r == Success(Resolved(ItemData(VNull), None)))
  {
    RegistryReferenceParts(s);
    ResolveRegistryPath(view, s, SchemasPrefix + s, PathParts(SchemasPrefix + s));
  }

  lemma ResolveRegistryPath(view: DocView, s: string, ref: string, parts: seq<string>)
    requires parts == ["components", "schemas", s]
    ensures ResolveParts(view, parts, ref)
      == Success(if s in view.schemas then Resolved(ItemNode(view.schemas[s]), Some(Slot(s, []))) else Resolved(ItemData(VNull), None))
  {
    WalkRegistryPath(view, s, ref, parts);
  }

  /**
   * The reference `getSchemaReference(name)` resolves to the definition
   * registered under the sanitized name, or to null when there is none,
   * provided that name holds no '/' (a slash would split it into several parts).
   */
  lemma ResolveSchemaReference(view: DocView, name: string)
    requires '/' !in Sanitize(name)
    ensures var r := Resolve(view, ItemNode(Reference(SchemaReference(name))));
      var s := Sanitize(name);
      (s in view.schemas ==> r == Success(Resolved(ItemNode(view.schemas[s]), Some(Slot(s, [])))))
      && (s !in view.schemas ==> r == Success(Resolved(ItemData(VNull), None)))
  {
    ResolveRegistryReference(view, Sanitize(name));
  }

  /** A first part that is no field of the root document makes resolution throw ExtractionImpossible. */
  lemma UnknownRootField(view: DocView, ref: string)
    requires var p := PathParts(ref)[0];
      p != "components" && p != "openapi" && p !in RootOpaqueFields && p != "customProperties"
    ensures Resolve(view, ItemNode(Reference(ref))) == NotFound(ref)
  {
  }

  /** "#" alone and "#/" name no field: the empty part is not a property of the root document. */
  lemma EmptyFragment(view: DocView)
    ensures Resolve(view, ItemNode(Reference("#"))) == NotFound("#")
    ensures Resolve(view, ItemNode(Reference("#/"))) == NotFound("#/")
  {
    assert LTrim("#", {'#', '/'}) == LTrim("", {'#', '/'});
    assert "#/"[1..] == "/" && "/"[1..] == "";
    assert LTrim("#/", {'#', '/'}) == "";
  }
}
