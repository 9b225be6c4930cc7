// Generator/ExamplesGenerator.php: the walker that builds an example value
// for a schema, honouring serializer groups, and the pass that stores one
// example on every media type of every operation of the document.
//
// The walk is a pair of mutually recursive functions (`ExampleOf` over a
// property, `PropertiesExample` over the properties of an object); the
// methods beside them are the loops of the source, each proved equal to
// its function. Recursion is bounded by `fuel`, because the one-level
// self-reference guard does not stop cycles through two definitions.

module Examples {
  import opened Wrappers
  import opened PhpValues
  import opened OpenApiSchema
  import SpecificationExtension
  import opened References
  import opened PathItems
  import opened Document
  import opened Strings

  // ---------------------------------------------------------------------
  // The group rule

  /** `shouldSkipUsingGroups` on a group array: no declared group is active. */
  predicate SkipUsingGroups(declared: Entries, active: Entries)
  {
    forall i :: 0 <= i < |declared| ==> !InArrayStrict(declared[i].1, active)
  }

  /** The loop of `shouldSkipUsingGroups`: stops at the first declared group that is active. */
  method ShouldSkipUsingGroups(declared: Entries, active: Entries) returns (skip: bool)
    ensures skip == SkipUsingGroups(declared, active)
  {
    var i := 0;
    while i < |declared|
      invariant 0 <= i <= |declared|
      invariant forall j :: 0 <= j < i ==> !InArrayStrict(declared[j].1, active)
    {
      if InArrayStrict(declared[i].1, active) {
        return false;
      }
      i := i + 1;
    }
    return true;
  }

  function InArrayTypeError<T>(): Result<T>
  {
    Failure(EngineError("TypeError: in_array(): Argument #2 ($haystack) must be of type array"))
  }

  /**
   * `shouldSkipProperty($propertyGroups, $serializerGroups)`. A truthy
   * non-array list of declared groups is not iterated, so it skips; a
   * non-array list of active groups makes `in_array` throw.
   */
  function ShouldSkipProperty(declared: Value, active: Value): Result<bool>
  {
    if !Truthy(declared) then
      (if active.VArr? then Success(!InArrayStrict(VStr("Default"), active.entries)) else InArrayTypeError())
    else if !declared.VArr? then Success(true)
    else if !active.VArr? then InArrayTypeError()
    else Success(SkipUsingGroups(declared.entries, active.entries))
  }

  /**
   * The skip rule: without declared groups a property is skipped exactly
   * when "Default" is not active; with declared groups, exactly when none of
   * them is active.
   */
  lemma SkipRule(declared: Value, active: Entries)
    ensures !Truthy(declared) ==>
      (ShouldSkipProperty(declared, VArr(active)) == Success(true) <==> !InArrayStrict(VStr("Default"), active))
    ensures declared.VArr? && declared.entries != [] ==>
      (ShouldSkipProperty(declared, VArr(active)) == Success(true) <==>
       forall i, j :: 0 <= i < |declared.entries| && 0 <= j < |active| ==> declared.entries[i].1 != active[j].1)
    ensures ShouldSkipProperty(declared, VArr(active)).Success?
  {
    if declared.VArr? && declared.entries != [] {
      assert Truthy(declared);
      if ShouldSkipProperty(declared, VArr(active)) == Success(true) {
        forall i, j | 0 <= i < |declared.entries| && 0 <= j < |active|
          ensures declared.entries[i].1 != active[j].1
        {
          assert !InArrayStrict(declared.entries[i].1, active);
        }
      }
    }
  }

  /**
   * The groups passed down to a sub-property: the active groups that the
   * sub-property declares, when both lists are set; otherwise null.
   */
  function SubGroups(active: Value, declared: Value): Result<Value>
  {
    if declared != VNull && active != VNull then
      (if active.VArr? && declared.VArr? then Success(VArr(ArrayIntersect(active.entries, declared.entries)))
       else Failure(EngineError("TypeError: array_intersect(): arguments must be of type array")))
    else Success(VNull)
  }

  /** The sub-groups are the active groups that are also declared, keys of the active list kept. */
  lemma SubGroupsIntersect(active: Entries, declared: Entries)
    ensures SubGroups(VArr(active), VArr(declared)).Success?
    ensures var g := SubGroups(VArr(active), VArr(declared)).value.entries;
      StringSet(g) == StringSet(active) * StringSet(declared)
      && forall e :: e in g <==> e in active && ToPhpString(e.1) in StringSet(declared)
  {
    IntersectProperties(active, declared);
  }

  // ---------------------------------------------------------------------
  // The walk

  /** What the loop recurses on: `allOf[0]` when a list of sub-schemas is set (null when it is empty). */
  function Unwrapped(sub: Node): Item
  {
    if sub.Schema? && sub.allOf.Some? then
      (if |sub.allOf.value| > 0 then ItemNode(sub.allOf.value[0]) else ItemData(VNull))
    else ItemNode(sub)
  }

  /** The current property and the sub-property are References to the same place. */
  predicate SelfReference(original: Item, sub: Item)
  {
    IsReference(original) && IsReference(sub) && original.node.ref == sub.node.ref
  }

  /** The values an example can take; an object example is never empty and holds no null. */
  predicate ExampleShape(v: Value)
  {
    v == VNull || v == VInt(1) || v == VFloat("1.2") || v == VBool(true) || v == VStr("string")
    || (v.VArr? && v.entries != [] && forall i :: 0 <= i < |v.entries| ==> v.entries[i].1 != VNull)
  }

  /** The declared groups of what the property resolved to, as `getCustomProperty` reads them. */
  function DeclaredGroups(resolved: Item): Result<Value>
  {
    match resolved
    case ItemNode(n) => ReadCustomProperty(n, "serializerGroups")
    case ItemOperation(op) => Success(SpecificationExtension.Lookup(op.customProperties, "serializerGroups"))
    case ItemDocument => Failure(NotModelled("the custom properties of the root document"))
    case ItemComponents => Failure(NotModelled("the custom properties of the components object"))
    case _ => Failure(EngineError("Error: Call to a member function getCustomProperty() on a non-object"))
  }

  /** The group test of line 79-82: only applied when active groups are set. */
  function Skipped(resolved: Item, groups: Value): Result<bool>
  {
    if groups == VNull then Success(false)
    else
      var declared :- DeclaredGroups(resolved);
      ShouldSkipProperty(declared, groups)
  }

  /** `$property->type` on what the property resolved to. */
  function TypeOf(resolved: Item): Option<string>
  {
    if resolved.ItemNode? && resolved.node.Schema? then resolved.node.typeName else None
  }

  /**
   * `getExampleOfType($property, $serializerGroups, $openApi, $recursive)`:
   * resolve the property, apply the group rule when groups are set, then
   * give the fixed example of its type, or for an object the examples of
   * its properties (null when there are none).
   */
  function ExampleOf(view: DocView, property: Item, groups: Value, recursive: bool, fuel: nat): (r: Result<Value>)
    ensures r.Success? ==> ExampleShape(r.value)
    decreases fuel, 0
  {
    if fuel == 0 then Failure(FuelExhausted)
    else
      var resolved :- Resolve(view, property);
      var target := resolved.item;
      var skip :- Skipped(target, groups);
      if skip then Success(VNull)
      else ResolvedExample(view, property, target, groups, recursive, fuel - 1)
  }

  /**
   * The example of what the property resolved to, once the group rule let
   * it through: the examples of an object's properties (null when there
   * are none), or the fixed example of its type.
   */
  function ResolvedExample(view: DocView, property: Item, target: Item, groups: Value, recursive: bool, fuel: nat)
    : (r: Result<Value>)
    ensures r.Success? ==> ExampleShape(r.value)
    decreases fuel, 3
  {
    if TypeOf(target) == Some("object") then
      var props := if target.node.properties.Some? then target.node.properties.value else [];
      var entries :- PropertiesExample(view, property, props, groups, recursive, fuel, []);
      Success(if entries == [] then VNull else VArr(entries))
    else Success(FixedExample(TypeOf(target)))
  }

  /** The fixed example of a scalar type; null for any other type, or none. */
  function FixedExample(t: Option<string>): (v: Value)
    ensures ExampleShape(v)
  {
    match t
    case Some("integer") => VInt(1)
    case Some("number") => VFloat("1.2")
    case Some("boolean") => VBool(true)
    case Some("string") => VStr("string")
    case _ => VNull
  }

  /**
   * The loop over the properties of an object, from `acc` on: each
   * property's example, when not null, is stored under its name.
   */
  function PropertiesExample(view: DocView, original: Item, props: Properties, groups: Value, recursive: bool,
                             fuel: nat, acc: Entries): (r: Result<Entries>)
    requires forall i :: 0 <= i < |acc| ==> acc[i].1 != VNull
    ensures r.Success? ==> forall i :: 0 <= i < |r.value| ==> r.value[i].1 != VNull
    ensures r.Success? && acc != [] ==> r.value != []
    decreases fuel, 2, |props|
  {
    if props == [] then Success(acc)
    else
      var acc' :- PropertyExample(view, original, props[0].0, props[0].1, groups, recursive, fuel, acc);
      PropertiesExample(view, original, props[1..], groups, recursive, fuel, acc')
  }

  /**
   * One iteration: the sub-groups, read from the property itself before
   * `allOf[0]` is unwrapped (so a property that is a Reference fails), the
   * self-reference guard, and the store of a non-null example.
   */
  function PropertyExample(view: DocView, original: Item, name: string, sub: Node, groups: Value, recursive: bool,
                           fuel: nat, acc: Entries): (r: Result<Entries>)
    requires forall i :: 0 <= i < |acc| ==> acc[i].1 != VNull
    ensures r.Success? ==> forall i :: 0 <= i < |r.value| ==> r.value[i].1 != VNull
    ensures r.Success? && acc != [] ==> r.value != []
    decreases fuel, 1
  {
    var declared :- ReadCustomProperty(sub, "serializerGroups");
    var subGroups :- SubGroups(groups, declared);
    var next := Unwrapped(sub);
    var self := SelfReference(original, next);
    if self && !recursive then Success(acc)
    else
      var value :- ExampleOf(view, next, subGroups, !self, fuel);
      if value != VNull then
        PutNonNull(acc, PhpKey(name), value);
        Success(ArrPut(acc, PhpKey(name), value))
      else Success(acc)
  }

  /** Storing a non-null example keeps every stored example non-null. */
  lemma PutNonNull(acc: Entries, k: Key, v: Value)
    requires v != VNull && forall i :: 0 <= i < |acc| ==> acc[i].1 != VNull
    ensures ArrPut(acc, k, v) != []
    ensures forall i :: 0 <= i < |ArrPut(acc, k, v)| ==> ArrPut(acc, k, v)[i].1 != VNull
  {
    var r := ArrPut(acc, k, v);
    forall i | 0 <= i < |r| ensures r[i].1 != VNull {
      if r[i] != (k, v) {
        var j :| 0 <= j < |acc| && acc[j] == r[i];
      }
    }
  }

  /**
   * The recursive method of `getExampleOfType`, proved equal to `ExampleOf`
   * over the view of the document's registry.
   */
  method GetExampleOfType(openApi: OpenApi, property: Item, groups: Value, recursive: bool, fuel: nat)
    returns (r: Result<Value>)
    ensures r == ExampleOf(ViewOf(openApi), property, groups, recursive, fuel)
    decreases fuel, 0
  {
    if fuel == 0 {
      return Failure(FuelExhausted);
    }
    var resolution := ResolveReference(property, openApi);
    if resolution.Failure? {
      return Failure(resolution.error);
    }
    var target := resolution.value.item;
    ExampleOfResolved(ViewOf(openApi), property, groups, recursive, fuel);
    var skip := Skipped(target, groups);
    if skip.Failure? {
      return Failure(skip.error);
    }
    if skip.value {
      return Success(VNull);
    }
    r := ResolvedExampleOf(openApi, property, target, groups, recursive, fuel - 1);
  }

  /** `getExampleOfType` once the property resolved: the group rule, then the typed half. */
  lemma ExampleOfResolved(view: DocView, property: Item, groups: Value, recursive: bool, fuel: nat)
    requires fuel > 0 && Resolve(view, property).Success?
    ensures var target := Resolve(view, property).value.item;
      var skip := Skipped(target, groups);
      ExampleOf(view, property, groups, recursive, fuel)
      == if skip.Failure? then Failure(skip.error)
         else if skip.value then Success(VNull)
         else ResolvedExample(view, property, target, groups, recursive, fuel - 1)
  {
  }

  /** The typed half of `getExampleOfType`, proved equal to `ResolvedExample`. */
  method ResolvedExampleOf(openApi: OpenApi, property: Item, target: Item, groups: Value, recursive: bool, fuel: nat)
    returns (r: Result<Value>)
    ensures r == ResolvedExample(ViewOf(openApi), property, target, groups, recursive, fuel)
    decreases fuel, 3
  {
    var t := TypeOf(target);
    if t == Some("object") {
      var props := if target.node.properties.Some? then target.node.properties.value else [];
      var entries := PropertiesLoop(openApi, property, props, groups, recursive, fuel);
      if entries.Failure? {
        return Failure(entries.error);
      }
      r := Success(if entries.value == [] then VNull else VArr(entries.value));
    } else {
      r := Success(FixedExample(t));
    }
  }

  /** The `foreach` over the properties, building `$result`; proved equal to `PropertiesExample`. */
  method PropertiesLoop(openApi: OpenApi, original: Item, props: Properties, groups: Value, recursive: bool, fuel: nat)
    returns (r: Result<Entries>)
    ensures r == PropertiesExample(ViewOf(openApi), original, props, groups, recursive, fuel, [])
    decreases fuel, 2
  {
    var acc: Entries := [];
    var i := 0;
    while i < |props|
      invariant 0 <= i <= |props|
      invariant forall j :: 0 <= j < |acc| ==> acc[j].1 != VNull
      invariant PropertiesExample(ViewOf(openApi), original, props, groups, recursive, fuel, [])
        == PropertiesExample(ViewOf(openApi), original, props[i..], groups, recursive, fuel, acc)
    {
      assert props[i..][1..] == props[i + 1..];
      var next := PropertyStep(openApi, original, props[i].0, props[i].1, groups, recursive, fuel, acc);
      if next.Failure? {
        return Failure(next.error);
      }
      acc := next.value;
      i := i + 1;
    }
    r := Success(acc);
  }

  /** The body of the `foreach`; proved equal to `PropertyExample`. */
  method PropertyStep(openApi: OpenApi, original: Item, name: string, sub: Node, groups: Value, recursive: bool,
                      fuel: nat, acc: Entries) returns (r: Result<Entries>)
    requires forall i :: 0 <= i < |acc| ==> acc[i].1 != VNull
    ensures r == PropertyExample(ViewOf(openApi), original, name, sub, groups, recursive, fuel, acc)
    decreases fuel, 1
  {
    var declared := ReadCustomProperty(sub, "serializerGroups");
    if declared.Failure? {
      return Failure(declared.error);
    }
    var subGroups := SubGroups(groups, declared.value);
    if subGroups.Failure? {
      return Failure(subGroups.error);
    }
    var next := Unwrapped(sub);
    var self := SelfReference(original, next);
    if self && !recursive {
      return Success(acc);
    }
    var value := GetExampleOfType(openApi, next, subGroups.value, !self, fuel);
    if value.Failure? {
      return Failure(value.error);
    }
    if value.value != VNull {
      r := Success(ArrPut(acc, PhpKey(name), value.value));
    } else {
      r := Success(acc);
    }
  }

  // ---------------------------------------------------------------------
  // Properties of the walk

  /** A schema with only its type set. */
  function Typed(t: string): (n: Node)
    ensures n.Schema? && n.typeName == Some(t) && n.properties.None? && n.allOf.None?
    ensures CustomPropertyOf(n, "serializerGroups") == VNull
  {
    EmptySchema.(typeName := Some(t))
  }

  /** With no active groups nothing is skipped, and the scalar types give their fixed examples. */
  lemma ScalarExamples(view: DocView, recursive: bool, fuel: nat)
    requires fuel > 0
    ensures ExampleOf(view, ItemNode(Typed("integer")), VNull, recursive, fuel) == Success(VInt(1))
    ensures ExampleOf(view, ItemNode(Typed("number")), VNull, recursive, fuel) == Success(VFloat("1.2"))
    ensures ExampleOf(view, ItemNode(Typed("boolean")), VNull, recursive, fuel) == Success(VBool(true))
    ensures ExampleOf(view, ItemNode(Typed("string")), VNull, recursive, fuel) == Success(VStr("string"))
  {
  }

  /** Any type other than the five handled ones, or none at all, gives null. */
  lemma OtherTypesGiveNull(view: DocView, n: Node, groups: Value, recursive: bool, fuel: nat)
    requires fuel > 0 && n.Schema?
    requires n.typeName.None? || n.typeName.value !in {"integer", "number", "boolean", "string", "object"}
    requires groups == VNull
    ensures ExampleOf(view, ItemNode(n), groups, recursive, fuel) == Success(VNull)
  {
    ResolveNonReference(view, ItemNode(n));
  }

  /** A property with no declared groups is dropped when "Default" is not among the active groups. */
  lemma SkippedWithoutDefault(view: DocView, n: Node, active: Entries, recursive: bool, fuel: nat)
    requires fuel > 0 && n.Schema? && CustomPropertyOf(n, "serializerGroups") == VNull
    requires !InArrayStrict(VStr("Default"), active)
    ensures ExampleOf(view, ItemNode(n), VArr(active), recursive, fuel) == Success(VNull)
  {
    ResolveNonReference(view, ItemNode(n));
  }

  /** A property declared for group "admin" is dropped when only "Default" is active, and kept when "admin" is. */
  lemma GroupFilterScenario(view: DocView, fuel: nat)
    requires fuel > 0
    ensures var n := WithCustomProperty(Typed("integer"), "serializerGroups", VArr([(IntKey(0), VStr("admin"))]));
      ExampleOf(view, ItemNode(n), VArr([(IntKey(0), VStr("Default"))]), true, fuel) == Success(VNull)
      && ExampleOf(view, ItemNode(n), VArr([(IntKey(0), VStr("admin"))]), true, fuel) == Success(VInt(1))
  {
    var n := WithCustomProperty(Typed("integer"), "serializerGroups", VArr([(IntKey(0), VStr("admin"))]));
    ResolveNonReference(view, ItemNode(n));
    assert !InArrayStrict(VStr("admin"), [(IntKey(0), VStr("Default"))]);
    assert [(IntKey(0), VStr("admin"))][0].1 == VStr("admin");
  }

  /** An object none of whose properties gives an example yields null, not an empty object. */
  lemma EmptyObjectIsNull(view: DocView, recursive: bool, fuel: nat)
    requires fuel > 1
    ensures ExampleOf(view, ItemNode(Typed("object")), VNull, recursive, fuel) == Success(VNull)
    ensures ExampleOf(view, ItemNode(EmptySchema.(typeName := Some("object"), properties := Some([("tags", Typed("array"))]))), VNull, recursive, fuel)
      == Success(VNull)
  {
    ResolveNonReference(view, ItemNode(Typed("object")));
    var o := EmptySchema.(typeName := Some("object"), properties := Some([("tags", Typed("array"))]));
    ResolveNonReference(view, ItemNode(o));
    var props := [("tags", Typed("array"))];
    OtherTypesGiveNull(view, Typed("array"), VNull, true, fuel - 1);
    assert !SelfReference(ItemNode(o), ItemNode(Typed("array")));
    assert PropertyExample(view, ItemNode(o), "tags", Typed("array"), VNull, recursive, fuel - 1, []) == Success([]);
    assert props[1..] == [];
    assert PropertiesExample(view, ItemNode(o), props, VNull, recursive, fuel - 1, []) == Success([]);
    assert ResolvedExample(view, ItemNode(o), ItemNode(o), VNull, recursive, fuel - 1) == Success(VNull);
    var t := ItemNode(Typed("object"));
    assert PropertiesExample(view, t, [], VNull, recursive, fuel - 1, []) == Success([]);
    assert ResolvedExample(view, t, t, VNull, recursive, fuel - 1) == Success(VNull);
  }

  /**
   * A property holding a list of sub-schemas is walked as its first
   * sub-schema, with the groups the property itself declares.
   */
  lemma AllOfFirstWalked(view: DocView, original: Item, name: string, sub: Node, groups: Value, fuel: nat)
    requires sub.Schema? && sub.allOf.Some? && |sub.allOf.value| > 0 && sub.allOf.value[0].Schema?
    requires SubGroups(groups, CustomPropertyOf(sub, "serializerGroups")).Success?
    ensures var g := SubGroups(groups, CustomPropertyOf(sub, "serializerGroups")).value;
      var v := ExampleOf(view, ItemNode(sub.allOf.value[0]), g, true, fuel);
      v.Success? ==>
        PropertiesExample(view, original, [(name, sub)], groups, false, fuel, [])
        == Success(if v.value != VNull then [(PhpKey(name), v.value)] else [])
  {
    assert [(name, sub)][1..] == [];
  }

  /**
   * A property declared as a list of sub-schemas holding one Reference:
   * the form in which a property reaches the self-reference guard, since
   * the groups of a property are read before `allOf` is unwrapped.
   */
  function RefWrapper(ref: string): (n: Node)
    ensures n.Schema? && CustomPropertyOf(n, "serializerGroups") == VNull
    ensures Unwrapped(n) == ItemNode(Reference(ref))
  {
    EmptySchema.(allOf := Some([Reference(ref)]))
  }

  /**
   * The self-reference guard: inside a Reference, a property that unwraps
   * to the same place is walked one level down with recursion off, and at
   * that level it is dropped.
   */
  lemma SelfReferenceGuard(view: DocView, ref: string, name: string, groups: Value, fuel: nat)
    requires SubGroups(groups, VNull).Success?
    ensures PropertiesExample(view, ItemNode(Reference(ref)), [(name, RefWrapper(ref))], groups, false, fuel, []) == Success([])
    ensures var v := ExampleOf(view, ItemNode(Reference(ref)), VNull, false, fuel);
      v.Success? ==>
        PropertiesExample(view, ItemNode(Reference(ref)), [(name, RefWrapper(ref))], groups, true, fuel, [])
        == Success(if v.value != VNull then [(PhpKey(name), v.value)] else [])
  {
    assert [(name, RefWrapper(ref))][1..] == [];
  }

  /**
   * A property that is itself a Reference stops the walk: its groups are
   * read with `getCustomProperty`, which Reference does not declare.
   */
  lemma DirectReferencePropertyFails(view: DocView, original: Item, name: string, ref: string, groups: Value,
                                     recursive: bool, fuel: nat, acc: Entries)
    requires forall i :: 0 <= i < |acc| ==> acc[i].1 != VNull
    ensures var r := PropertyExample(view, original, name, Reference(ref), groups, recursive, fuel, acc);
      r.Failure? && r.error == CustomPropertyAsWritten(Reference(ref), "serializerGroups").error
  {
    var read := ReadCustomProperty(Reference(ref), "serializerGroups");
    assert read.Failure? && read == CustomPropertyAsWritten(Reference(ref), "serializerGroups");
  }

  const NodeRef: string := SchemasPrefix + "Node"

  /** The "parent" property of `NodeDefinition`: a one-element `allOf` around a Reference to the definition. */
  const ParentProperty: Node := RefWrapper(NodeRef)

  /** A definition with an integer "id" and a "parent" that refers to the definition itself. */
  const NodeDefinition: Node :=
    EmptySchema.(typeName := Some("object"), properties := Some([("id", Typed("integer")), ("parent", ParentProperty)]))

  lemma NodeRefResolves(view: DocView)
    requires view.schemas == map["Node" := NodeDefinition]
    ensures Resolve(view, ItemNode(Reference(NodeRef))) == Success(Resolved(ItemNode(NodeDefinition), Some(Slot("Node", []))))
  {
    ResolveRegistryReference(view, "Node");
  }

  lemma IdExample(view: DocView, original: Item, recursive: bool, fuel: nat)
    requires fuel > 0
    ensures PropertyExample(view, original, "id", Typed("integer"), VNull, recursive, fuel, [])
      == Success([(StrKey("id"), VInt(1))])
  {
    ScalarExamples(view, true, fuel);
    assert !SelfReference(original, ItemNode(Typed("integer")));
    assert PhpKey("id") == StrKey("id") by { assert !IsDigit('i'); }
  }

  lemma PropertiesCons(view: DocView, original: Item, name: string, sub: Node, rest: Properties, groups: Value,
                       recursive: bool, fuel: nat, acc: Entries)
    requires forall i :: 0 <= i < |acc| ==> acc[i].1 != VNull
    requires PropertyExample(view, original, name, sub, groups, recursive, fuel, acc).Success?
    ensures PropertiesExample(view, original, [(name, sub)] + rest, groups, recursive, fuel, acc)
      == PropertiesExample(view, original, rest, groups, recursive, fuel,
                           PropertyExample(view, original, name, sub, groups, recursive, fuel, acc).value)
  {
    assert ([(name, sub)] + rest)[1..] == rest;
  }

  /** An object example is built from the examples of the properties of what the property resolves to. */
  lemma ObjectExample(view: DocView, property: Item, n: Node, recursive: bool, fuel: nat)
    requires fuel > 0 && n.Schema? && n.typeName == Some("object") && n.properties.Some?
    requires Resolve(view, property).Success? && Resolve(view, property).value.item == ItemNode(n)
    ensures var e := PropertiesExample(view, property, n.properties.value, VNull, recursive, fuel - 1, []);
      e.Success? ==>
        ExampleOf(view, property, VNull, recursive, fuel) == Success(if e.value == [] then VNull else VArr(e.value))
  {
  }

  lemma ParentGuarded(view: DocView, recursive: bool, fuel: nat, acc: Entries)
    requires !recursive && forall i :: 0 <= i < |acc| ==> acc[i].1 != VNull
    ensures PropertyExample(view, ItemNode(Reference(NodeRef)), "parent", ParentProperty, VNull, recursive, fuel, acc)
      == Success(acc)
  {
    assert SelfReference(ItemNode(Reference(NodeRef)), ItemNode(Reference(NodeRef)));
  }

  lemma NodeInnerProperties(view: DocView, fuel: nat)
    requires fuel > 0
    ensures PropertiesExample(view, ItemNode(Reference(NodeRef)), NodeDefinition.properties.value, VNull, false, fuel, [])
      == Success([(StrKey("id"), VInt(1))])
  {
    var original := ItemNode(Reference(NodeRef));
    var id := [(StrKey("id"), VInt(1))];
    var rest: Properties := [("parent", ParentProperty)];
    IdExample(view, original, false, fuel);
    ParentGuarded(view, false, fuel, id);
    assert NodeDefinition.properties.value == [("id", Typed("integer"))] + rest;
    PropertiesCons(view, original, "id", Typed("integer"), rest, VNull, false, fuel, []);
    assert rest == [("parent", ParentProperty)] + [];
    PropertiesCons(view, original, "parent", ParentProperty, [], VNull, false, fuel, id);
  }

  /** One level down, with recursion off, the parent is dropped: {"id": 1}. */
  lemma NodeInnerLevel(view: DocView, fuel: nat)
    requires view.schemas == map["Node" := NodeDefinition] && fuel > 1
    ensures ExampleOf(view, ItemNode(Reference(NodeRef)), VNull, false, fuel) == Success(VArr([(StrKey("id"), VInt(1))]))
  {
    NodeInnerProperties(view, fuel - 1);
    NodeRefResolves(view);
    ObjectExample(view, ItemNode(Reference(NodeRef)), NodeDefinition, false, fuel);
  }

  lemma ParentExpanded(view: DocView, fuel: nat)
    requires view.schemas == map["Node" := NodeDefinition] && fuel > 1
    ensures var id := [(StrKey("id"), VInt(1))];
      PropertyExample(view, ItemNode(Reference(NodeRef)), "parent", ParentProperty, VNull, true, fuel, id)
      == Success(id + [(StrKey("parent"), VArr(id))])
  {
    var id := [(StrKey("id"), VInt(1))];
    NodeInnerLevel(view, fuel);
    assert SelfReference(ItemNode(Reference(NodeRef)), ItemNode(Reference(NodeRef)));
    PutParent(VArr(id));
  }

  /** The "parent" entry is stored after "id", under a string key. */
  lemma PutParent(v: Value)
    ensures var id := [(StrKey("id"), VInt(1))];
      ArrPut(id, PhpKey("parent"), v) == id + [(StrKey("parent"), v)]
  {
    assert PhpKey("parent") == StrKey("parent") by { assert !IsDigit('p'); }
    assert "id"[0] != "parent"[0];
  }

  lemma NodeOuterProperties(view: DocView, fuel: nat)
    requires view.schemas == map["Node" := NodeDefinition] && fuel > 1
    ensures var id := [(StrKey("id"), VInt(1))];
      PropertiesExample(view, ItemNode(Reference(NodeRef)), NodeDefinition.properties.value, VNull, true, fuel, [])
      == Success(id + [(StrKey("parent"), VArr(id))])
  {
    var original := ItemNode(Reference(NodeRef));
    var id := [(StrKey("id"), VInt(1))];
    var rest: Properties := [("parent", ParentProperty)];
    IdExample(view, original, true, fuel);
    ParentExpanded(view, fuel);
    assert NodeDefinition.properties.value == [("id", Typed("integer"))] + rest;
    PropertiesCons(view, original, "id", Typed("integer"), rest, VNull, true, fuel, []);
    assert rest == [("parent", ParentProperty)] + [];
    PropertiesCons(view, original, "parent", ParentProperty, [], VNull, true, fuel, id);
  }

  /**
   * A definition "Node" with an integer "id" and a "parent" referring to
   * itself gives {"id": 1, "parent": {"id": 1}}: the parent is expanded
   * once, given fuel for three levels.
   */
  lemma SelfReferencingDefinition(view: DocView, fuel: nat)
    requires view.schemas == map["Node" := NodeDefinition] && fuel > 2
    ensures ExampleOf(view, ItemNode(Reference(NodeRef)), VNull, true, fuel)
      == Success(VArr([(StrKey("id"), VInt(1)), (StrKey("parent"), VArr([(StrKey("id"), VInt(1))]))]))
  {
    NodeOuterProperties(view, fuel - 1);
    NodeRefResolves(view);
    ObjectExample(view, ItemNode(Reference(NodeRef)), NodeDefinition, true, fuel);
    var id := [(StrKey("id"), VInt(1))];
    assert id + [(StrKey("parent"), VArr(id))] == [(StrKey("id"), VInt(1)), (StrKey("parent"), VArr(id))];
  }

  // ---------------------------------------------------------------------
  // The document pass

  /** `$mediaType->schema` as a walk target (null when unset). */
  function SchemaItem(m: MediaType): Item
  {
    if m.schema.Some? then ItemNode(m.schema.value) else ItemData(VNull)
  }

  /** A list result with `acc` in front, or the failure unchanged. */
  function Prepend<T>(acc: seq<T>, r: Result<seq<T>>): Result<seq<T>>
  {
    if r.Success? then Success(acc + r.value) else r
  }

  lemma PrependNothing<T>(r: Result<seq<T>>)
    ensures Prepend([], r) == r
  {
    if r.Success? {
      assert [] + r.value == r.value;
    }
  }

  /**
   * The loop over a content map: every media type gets the example of its
   * schema under the given groups; keys and schemas stay as they are.
   */
  function ContentWithExamples(view: DocView, content: Content, groups: Value, fuel: nat): (r: Result<Content>)
    ensures r.Success? <==> forall i :: 0 <= i < |content| ==> ExampleOf(view, SchemaItem(content[i].1), groups, true, fuel).Success?
    ensures r.Success? ==> |r.value| == |content| && forall i :: 0 <= i < |content| ==>
      r.value[i].0 == content[i].0 && r.value[i].1.schema == content[i].1.schema
      && ExampleOf(view, SchemaItem(content[i].1), groups, true, fuel) == Success(r.value[i].1.example)
    decreases |content|
  {
    if content == [] then Success([])
    else
      var e :- ExampleOf(view, SchemaItem(content[0].1), groups, true, fuel);
      var rest :- ContentWithExamples(view, content[1..], groups, fuel);
      Success([(content[0].0, content[0].1.(example := e))] + rest)
  }

  /** The responses of an operation, each response with content getting its examples. */
  function ResponsesWithExamples(view: DocView, responses: seq<(Key, Response)>, groups: Value, fuel: nat)
    : Result<seq<(Key, Response)>>
    decreases |responses|
  {
    if responses == [] then Success([])
    else
      var updated :- ResponseWithExamples(view, responses[0].1, groups, fuel);
      var rest :- ResponsesWithExamples(view, responses[1..], groups, fuel);
      Success([(responses[0].0, updated)] + rest)
  }

  /** One response: its media types get their examples when it has content. */
  function ResponseWithExamples(view: DocView, response: Response, groups: Value, fuel: nat): Result<Response>
  {
    if response.content.None? then Success(response)
    else
      var c :- ContentWithExamples(view, response.content.value, groups, fuel);
      Success(response.(content := Some(c)))
  }

  /**
   * Every response keeps its code and every field but `content`; a response
   * without content is unchanged, and one with content gets the examples of
   * its media types.
   */
  lemma {:induction false} ResponsesWithExamplesShape(view: DocView, responses: seq<(Key, Response)>, groups: Value, fuel: nat)
    ensures var r := ResponsesWithExamples(view, responses, groups, fuel);
      r.Success? ==> |r.value| == |responses| && forall i :: 0 <= i < |responses| ==>
        r.value[i].0 == responses[i].0
        && r.value[i].1.(content := responses[i].1.content) == responses[i].1
        && (responses[i].1.content.None? ==> r.value[i].1 == responses[i].1)
        && (responses[i].1.content.Some? ==>
              Success(r.value[i].1.content) == ContentOption(ContentWithExamples(view, responses[i].1.content.value, groups, fuel)))
    decreases |responses|
  {
    if responses != [] {
      ResponsesWithExamplesShape(view, responses[1..], groups, fuel);
      var r := ResponsesWithExamples(view, responses, groups, fuel);
      if r.Success? {
        var rest := ResponsesWithExamples(view, responses[1..], groups, fuel);
        assert r.value[1..] == rest.value;
        forall i | 1 <= i < |responses|
          ensures r.value[i] == rest.value[i - 1] && responses[i] == responses[1..][i - 1]
        {
        }
      }
    }
  }

  function ContentOption(r: Result<Content>): Result<Option<Content>>
  {
    if r.Success? then Success(Some(r.value)) else Failure(r.error)
  }

  /**
   * One operation: the request body's media types with the operation's
   * `deserializationGroups`, the responses' media types with its
   * `serializationGroups`; nothing else of the operation changes.
   */
  function OperationWithExamples(view: DocView, op: Operation, fuel: nat): (r: Result<Operation>)
    ensures r.Success? ==> r.value.(requestBody := op.requestBody, responses := op.responses) == op
    ensures r.Success? ==> r.value.requestBody.Some? == op.requestBody.Some? && |r.value.responses| == |op.responses|
    ensures r.Success? && op.requestBody.Some? && op.requestBody.value.content.Some? ==>
      Success(r.value.requestBody.value.content) == ContentOption(ContentWithExamples(view, op.requestBody.value.content.value,
        SpecificationExtension.Lookup(op.customProperties, "deserializationGroups"), fuel))
    ensures r.Success? ==>
      Success(r.value.responses) == ResponsesWithExamples(view, op.responses,
        SpecificationExtension.Lookup(op.customProperties, "serializationGroups"), fuel)
  {
    var deserializationGroups := SpecificationExtension.Lookup(op.customProperties, "deserializationGroups");
    var body :-
      if op.requestBody.None? || op.requestBody.value.content.None? then Success(op.requestBody)
      else
        var c :- ContentWithExamples(view, op.requestBody.value.content.value, deserializationGroups, fuel);
        Success(Some(op.requestBody.value.(content := Some(c))));
    var serializationGroups := SpecificationExtension.Lookup(op.customProperties, "serializationGroups");
    var responses :- ResponsesWithExamples(view, op.responses, serializationGroups, fuel);
    ResponsesWithExamplesShape(view, op.responses, serializationGroups, fuel);
    Success(op.(requestBody := body, responses := responses))
  }

  /** The path item with the operation field of method `m` replaced. */
  function WithField(p: PathItem, m: string, op: Operation): (r: PathItem)
    ensures m in OperationMethods ==> Field(r, m) == Some(op)
    ensures forall m' :: m' != m ==> Field(r, m') == Field(p, m')
  {
    match m
    case "get" => p.(get := Some(op))
    case "put" => p.(put := Some(op))
    case "post" => p.(post := Some(op))
    case "delete" => p.(delete := Some(op))
    case "options" => p.(options := Some(op))
    case "head" => p.(head := Some(op))
    case "patch" => p.(patch := Some(op))
    case "trace" => p.(trace := Some(op))
    case _ => p
  }

  /** The loop over `getOperations()`, writing each updated operation back into its field. */
  function ApplyOperations(view: DocView, p: PathItem, ops: seq<(string, Operation)>, fuel: nat): Result<PathItem>
    decreases |ops|
  {
    if ops == [] then Success(p)
    else
      var op :- OperationWithExamples(view, ops[0].1, fuel);
      ApplyOperations(view, WithField(p, ops[0].0, op), ops[1..], fuel)
  }

  function PathItemWithExamples(view: DocView, p: PathItem, fuel: nat): Result<PathItem>
  {
    ApplyOperations(view, p, Operations(p), fuel)
  }

  /** The loop over `$openApi->paths`; path keys and order stay as they are. */
  function PathsWithExamples(view: DocView, paths: seq<(string, PathItem)>, fuel: nat): (r: Result<seq<(string, PathItem)>>)
    ensures r.Success? ==> |r.value| == |paths| && forall i :: 0 <= i < |paths| ==>
      r.value[i].0 == paths[i].0 && PathItemWithExamples(view, paths[i].1, fuel) == Success(r.value[i].1)
    decreases |paths|
  {
    if paths == [] then Success([])
    else
      var item :- PathItemWithExamples(view, paths[0].1, fuel);
      var rest :- PathsWithExamples(view, paths[1..], fuel);
      Success([(paths[0].0, item)] + rest)
  }

  /**
   * Applying the updates of operations with distinct methods sets each
   * such method's field to its updated operation and leaves the others.
   */
  lemma ApplyOperationsFields(view: DocView, p: PathItem, ops: seq<(string, Operation)>, fuel: nat)
    requires forall i :: 0 <= i < |ops| ==> ops[i].0 in OperationMethods
    requires forall i, j :: 0 <= i < j < |ops| ==> ops[i].0 != ops[j].0
    requires ApplyOperations(view, p, ops, fuel).Success?
    ensures var r := ApplyOperations(view, p, ops, fuel).value;
      (forall i :: 0 <= i < |ops| ==>
         OperationWithExamples(view, ops[i].1, fuel).Success? && Field(r, ops[i].0) == Some(OperationWithExamples(view, ops[i].1, fuel).value))
      && (forall m :: (forall i :: 0 <= i < |ops| ==> ops[i].0 != m) ==> Field(r, m) == Field(p, m))
  {
    ApplyOperationsSets(view, p, ops, fuel);
    ApplyOperationsKeeps(view, p, ops, fuel);
  }

  /** The fields of methods the updates do not name keep their operation. */
  lemma {:induction false} ApplyOperationsKeeps(view: DocView, p: PathItem, ops: seq<(string, Operation)>, fuel: nat)
    requires ApplyOperations(view, p, ops, fuel).Success?
    ensures var r := ApplyOperations(view, p, ops, fuel).value;
      forall m :: (forall i :: 0 <= i < |ops| ==> ops[i].0 != m) ==> Field(r, m) == Field(p, m)
    decreases |ops|
  {
    if ops != [] {
      var op := OperationWithExamples(view, ops[0].1, fuel).value;
      var q := WithField(p, ops[0].0, op);
      var tail := ops[1..];
      ApplyOperationsKeeps(view, q, tail, fuel);
      var r := ApplyOperations(view, p, ops, fuel).value;
      assert r == ApplyOperations(view, q, tail, fuel).value;
      forall m | forall i :: 0 <= i < |ops| ==> ops[i].0 != m
        ensures Field(r, m) == Field(p, m)
      {
        assert ops[0].0 != m;
        forall k | 0 <= k < |tail| ensures tail[k].0 != m {
          assert tail[k] == ops[k + 1];
        }
      }
    }
  }

  /** Each named method's field holds its updated operation. */
  lemma {:induction false} ApplyOperationsSets(view: DocView, p: PathItem, ops: seq<(string, Operation)>, fuel: nat)
    requires forall i :: 0 <= i < |ops| ==> ops[i].0 in OperationMethods
    requires forall i, j :: 0 <= i < j < |ops| ==> ops[i].0 != ops[j].0
    requires ApplyOperations(view, p, ops, fuel).Success?
    ensures var r := ApplyOperations(view, p, ops, fuel).value;
      forall i :: 0 <= i < |ops| ==>
        OperationWithExamples(view, ops[i].1, fuel).Success? && Field(r, ops[i].0) == Some(OperationWithExamples(view, ops[i].1, fuel).value)
    decreases |ops|
  {
    if ops != [] {
      var op := OperationWithExamples(view, ops[0].1, fuel).value;
      var q := WithField(p, ops[0].0, op);
      var tail := ops[1..];
      forall i, j | 0 <= i < j < |tail| ensures tail[i].0 != tail[j].0 {
        assert tail[i] == ops[i + 1] && tail[j] == ops[j + 1];
      }
      forall i | 0 <= i < |tail| ensures tail[i].0 in OperationMethods {
        assert tail[i] == ops[i + 1];
      }
      ApplyOperationsSets(view, q, tail, fuel);
      ApplyOperationsKeeps(view, q, tail, fuel);
      var r := ApplyOperations(view, p, ops, fuel).value;
      assert r == ApplyOperations(view, q, tail, fuel).value;
      forall i | 0 <= i < |ops|
        ensures OperationWithExamples(view, ops[i].1, fuel).Success? && Field(r, ops[i].0) == Some(OperationWithExamples(view, ops[i].1, fuel).value)
      {
        if i == 0 {
          forall k | 0 <= k < |tail| ensures tail[k].0 != ops[0].0 {
            assert tail[k] == ops[k + 1];
          }
        } else {
          assert ops[i] == tail[i - 1];
        }
      }
    }
  }

  /**
   * After the pass over a path item, every method that held an operation
   * holds that operation with its examples, and the other fields are still empty.
   */
  lemma PathItemFields(view: DocView, p: PathItem, fuel: nat)
    requires PathItemWithExamples(view, p, fuel).Success?
    ensures var r := PathItemWithExamples(view, p, fuel).value;
      forall m :: m in OperationMethods ==>
        (Field(p, m).None? ==> Field(r, m).None?)
        && (Field(p, m).Some? ==>
              OperationWithExamples(view, Field(p, m).value, fuel).Success?
              && Field(r, m) == Some(OperationWithExamples(view, Field(p, m).value, fuel).value))
  {
    var ops := Operations(p);
    OperationsProperties(p);
    OperationsAmongSound(p, OperationMethods);
    assert forall i, j :: 0 <= i < j < |ops| ==> ops[i].0 != ops[j].0;
    ApplyOperationsFields(view, p, ops, fuel);
    var r := PathItemWithExamples(view, p, fuel).value;
    forall m | m in OperationMethods
      ensures Field(p, m).None? ==> Field(r, m).None?
      ensures Field(p, m).Some? ==>
        OperationWithExamples(view, Field(p, m).value, fuel).Success?
        && Field(r, m) == Some(OperationWithExamples(view, Field(p, m).value, fuel).value)
    {
      if Field(p, m).Some? {
        var i :| 0 <= i < |ops| && ops[i].0 == m;
        assert Field(p, m) == Some(ops[i].1);
      } else {
        forall i | 0 <= i < |ops| ensures ops[i].0 != m {
          assert Field(p, ops[i].0) == Some(ops[i].1);
        }
      }
    }
  }

  lemma ContentStep(view: DocView, content: Content, groups: Value, fuel: nat, acc: Content, i: nat)
    requires i < |content|
    ensures var e := ExampleOf(view, SchemaItem(content[i].1), groups, true, fuel);
      Prepend(acc, ContentWithExamples(view, content[i..], groups, fuel))
      == if e.Failure? then Failure(e.error)
         else Prepend(acc + [(content[i].0, content[i].1.(example := e.value))], ContentWithExamples(view, content[i + 1..], groups, fuel))
  {
    assert content[i..][0] == content[i] && content[i..][1..] == content[i + 1..];
    var rest := ContentWithExamples(view, content[i + 1..], groups, fuel);
    if rest.Success? {
      forall x: (string, MediaType) ensures acc + ([x] + rest.value) == (acc + [x]) + rest.value {
      }
    }
  }

  lemma ResponsesStep(view: DocView, responses: seq<(Key, Response)>, groups: Value, fuel: nat,
                      acc: seq<(Key, Response)>, i: nat)
    requires i < |responses|
    ensures var u := ResponseWithExamples(view, responses[i].1, groups, fuel);
      Prepend(acc, ResponsesWithExamples(view, responses[i..], groups, fuel))
      == if u.Failure? then Failure(u.error)
         else Prepend(acc + [(responses[i].0, u.value)], ResponsesWithExamples(view, responses[i + 1..], groups, fuel))
  {
    assert responses[i..][0] == responses[i] && responses[i..][1..] == responses[i + 1..];
    var rest := ResponsesWithExamples(view, responses[i + 1..], groups, fuel);
    if rest.Success? {
      forall x: (Key, Response) ensures acc + ([x] + rest.value) == (acc + [x]) + rest.value {
      }
    }
  }

  lemma PathsStep(view: DocView, paths: seq<(string, PathItem)>, fuel: nat, acc: seq<(string, PathItem)>, i: nat)
    requires i < |paths|
    ensures var item := PathItemWithExamples(view, paths[i].1, fuel);
      Prepend(acc, PathsWithExamples(view, paths[i..], fuel))
      == if item.Failure? then Failure(item.error)
         else Prepend(acc + [(paths[i].0, item.value)], PathsWithExamples(view, paths[i + 1..], fuel))
  {
    assert paths[i..][0] == paths[i] && paths[i..][1..] == paths[i + 1..];
    var rest := PathsWithExamples(view, paths[i + 1..], fuel);
    if rest.Success? {
      forall x: (string, PathItem) ensures acc + ([x] + rest.value) == (acc + [x]) + rest.value {
      }
    }
  }

  // ---------------------------------------------------------------------
  // The pass as the loops of the source

  /** The `foreach` over a content map, proved equal to `ContentWithExamples`. */
  method FillContent(openApi: OpenApi, content: Content, groups: Value, fuel: nat) returns (r: Result<Content>)
    ensures r == ContentWithExamples(ViewOf(openApi), content, groups, fuel)
  {
    var acc: Content := [];
    var i := 0;
    assert content[i..] == content;
    PrependNothing(ContentWithExamples(ViewOf(openApi), content, groups, fuel));
    while i < |content|
      invariant 0 <= i <= |content|
      invariant ContentWithExamples(ViewOf(openApi), content, groups, fuel)
        == Prepend(acc, ContentWithExamples(ViewOf(openApi), content[i..], groups, fuel))
    {
      ContentStep(ViewOf(openApi), content, groups, fuel, acc, i);
      var example := GetExampleOfType(openApi, SchemaItem(content[i].1), groups, true, fuel);
      if example.Failure? {
        return Failure(example.error);
      }
      acc := acc + [(content[i].0, content[i].1.(example := example.value))];
      i := i + 1;
    }
    assert content[i..] == [] && acc + [] == acc;
    r := Success(acc);
  }

  /** The `foreach` over the responses, proved equal to `ResponsesWithExamples`. */
  method FillResponses(openApi: OpenApi, responses: seq<(Key, Response)>, groups: Value, fuel: nat)
    returns (r: Result<seq<(Key, Response)>>)
    ensures r == ResponsesWithExamples(ViewOf(openApi), responses, groups, fuel)
  {
    var acc: seq<(Key, Response)> := [];
    var i := 0;
    assert responses[i..] == responses;
    PrependNothing(ResponsesWithExamples(ViewOf(openApi), responses, groups, fuel));
    while i < |responses|
      invariant 0 <= i <= |responses|
      invariant ResponsesWithExamples(ViewOf(openApi), responses, groups, fuel)
        == Prepend(acc, ResponsesWithExamples(ViewOf(openApi), responses[i..], groups, fuel))
    {
      ResponsesStep(ViewOf(openApi), responses, groups, fuel, acc, i);
      var response := FillResponse(openApi, responses[i].1, groups, fuel);
      if response.Failure? {
        return Failure(response.error);
      }
      acc := acc + [(responses[i].0, response.value)];
      i := i + 1;
    }
    assert responses[i..] == [] && acc + [] == acc;
    r := Success(acc);
  }

  /** The body of the responses loop for one response. */
  method FillResponse(openApi: OpenApi, response: Response, groups: Value, fuel: nat) returns (r: Result<Response>)
    ensures r == ResponseWithExamples(ViewOf(openApi), response, groups, fuel)
  {
    if response.content.None? {
      return Success(response);
    }
    var c := FillContent(openApi, response.content.value, groups, fuel);
    if c.Failure? {
      return Failure(c.error);
    }
    r := Success(response.(content := Some(c.value)));
  }

  /** One operation of `generateExamples`, proved equal to `OperationWithExamples`. */
  method FillOperation(openApi: OpenApi, op: Operation, fuel: nat) returns (r: Result<Operation>)
    ensures r == OperationWithExamples(ViewOf(openApi), op, fuel)
  {
    var deserializationGroups := SpecificationExtension.Lookup(op.customProperties, "deserializationGroups");
    var body := op.requestBody;
    if body.Some? && body.value.content.Some? {
      var c := FillContent(openApi, body.value.content.value, deserializationGroups, fuel);
      if c.Failure? {
        return Failure(c.error);
      }
      body := Some(body.value.(content := Some(c.value)));
    }
    var serializationGroups := SpecificationExtension.Lookup(op.customProperties, "serializationGroups");
    var responses := FillResponses(openApi, op.responses, serializationGroups, fuel);
    if responses.Failure? {
      return Failure(responses.error);
    }
    r := Success(op.(requestBody := body, responses := responses.value));
  }

  /** The `foreach` over `$path->getOperations()`, proved equal to `PathItemWithExamples`. */
  method FillPathItem(openApi: OpenApi, p: PathItem, fuel: nat) returns (r: Result<PathItem>)
    ensures r == PathItemWithExamples(ViewOf(openApi), p, fuel)
  {
    var ops := GetOperations(p);
    var current := p;
    var i := 0;
    while i < |ops|
      invariant 0 <= i <= |ops|
      invariant ApplyOperations(ViewOf(openApi), p, ops, fuel) == ApplyOperations(ViewOf(openApi), current, ops[i..], fuel)
    {
      assert ops[i..][1..] == ops[i + 1..];
      var op := FillOperation(openApi, ops[i].1, fuel);
      if op.Failure? {
        return Failure(op.error);
      }
      current := WithField(current, ops[i].0, op.value);
      i := i + 1;
    }
    r := Success(current);
  }

  /** The outer `foreach` over `$openApi->paths`, proved equal to `PathsWithExamples`. */
  method FillPaths(openApi: OpenApi, paths: seq<(string, PathItem)>, fuel: nat) returns (r: Result<seq<(string, PathItem)>>)
    ensures r == PathsWithExamples(ViewOf(openApi), paths, fuel)
  {
    var acc: seq<(string, PathItem)> := [];
    var i := 0;
    assert paths[i..] == paths;
    PrependNothing(PathsWithExamples(ViewOf(openApi), paths, fuel));
    while i < |paths|
      invariant 0 <= i <= |paths|
      invariant PathsWithExamples(ViewOf(openApi), paths, fuel)
        == Prepend(acc, PathsWithExamples(ViewOf(openApi), paths[i..], fuel))
    {
      PathsStep(ViewOf(openApi), paths, fuel, acc, i);
      var item := FillPathItem(openApi, paths[i].1, fuel);
      if item.Failure? {
        return Failure(item.error);
      }
      acc := acc + [(paths[i].0, item.value)];
      i := i + 1;
    }
    assert paths[i..] == [] && acc + [] == acc;
    r := Success(acc);
  }

  /**
   * `generateExamples($openApi)`: on success every media type of every
   * operation holds its example, as `PathsWithExamples` states; on an
   * error the paths are left as they were.
   */
  method GenerateExamples(openApi: OpenApi, fuel: nat) returns (error: Option<Error>)
    modifies openApi
    ensures var expected := PathsWithExamples(ViewOf(openApi), old(openApi.paths), fuel);
      (error.None? <==> expected.Success?)
      && (expected.Success? ==> openApi.paths == expected.value)
      && (expected.Failure? ==> openApi.paths == old(openApi.paths) && error == Some(expected.error))
  {
    var r := FillPaths(openApi, openApi.paths, fuel);
    if r.Failure? {
      return Some(r.error);
    }
    openApi.paths := r.value;
    return None;
  }
}
