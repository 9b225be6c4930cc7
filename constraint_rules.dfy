// Extraction/Extractor/ConstraintExtractor.php: the base class of the
// extractors that turn validator constraints into schema facts. The
// validator's class metadata is an input record; `supportConstraint` is a
// set of supported constraint classes and `extractConstraint`, abstract in
// the base class, is an oracle giving the class schema after one call.

module ConstraintRules {
  import opened Wrappers
  import opened PhpValues
  import opened OpenApiSchema
  import opened Extraction
  import References

  /**
   * A constraint object. Two constraints are the same object exactly when
   * they carry the same instance number; `in_array(..., true)` compares them so.
   */
  datatype Constraint = Constraint(instance: nat, className: string)

  /** The metadata of one member of a class (a property or its getter): its constraints by group. */
  datatype PropertyMetadata = PropertyMetadata(byGroup: map<string, seq<Constraint>>)

  /** `$propertyMetadata->findConstraints($group)`. */
  function FindConstraints(pm: PropertyMetadata, group: string): seq<Constraint>
  {
    if group in pm.byGroup then pm.byGroup[group] else []
  }

  /** The validator's metadata of a class: its constrained property names and their metadata. */
  datatype ClassMetadata = ClassMetadata(
    constrainedProperties: seq<string>,
    propertyMetadata: map<string, seq<PropertyMetadata>>)

  /** `$classMetadata->getPropertyMetadata($name)`, empty for an unknown name. */
  function PropertyMetadataOf(cm: ClassMetadata, name: string): seq<PropertyMetadata>
  {
    if name in cm.propertyMetadata then cm.propertyMetadata[name] else []
  }

  /** The metadata factory: `hasMetadataFor` is membership, `getMetadataFor` lookup. */
  type MetadataFactory = map<string, ClassMetadata>

  /** A concrete constraint extractor: its class name and the constraint classes it supports. */
  datatype ConstraintExtractor = ConstraintExtractor(className: string, supported: set<string>)

  /** `supportConstraint`. */
  predicate SupportConstraint(e: ConstraintExtractor, c: Constraint)
  {
    c.className in e.supported
  }

  /** `assertSupportConstraint`: an InvalidArgumentException naming both classes, exactly for an unsupported constraint. */
  function AssertSupportConstraint(e: ConstraintExtractor, c: Constraint): (r: Option<Error>)
    ensures r.None? <==> SupportConstraint(e, c)
    ensures r.Some? ==> r.value.InvalidArgument?
  {
    if SupportConstraint(e, c) then None
    else Some(InvalidArgument("The constraint of type [" + c.className + "] is not supported by [" + e.className + "]"))
  }

  // ---------------------------------------------------------------------
  // getPropertiesConstraints, as prefix-recursive specifications

  /** The group names of the `validation-groups` parameter; anything but an array fails the `array` parameter type. */
  function GroupNames(param: Value): (r: Result<seq<string>>)
    ensures r.Success? <==> param.VArr?
    ensures r.Success? ==> |r.value| == |param.entries|
  {
    if !param.VArr? then Failure(EngineError("getPropertiesConstraints(): Argument #3 ($groups) must be of type array"))
    else Success(seq(|param.entries|, i requires 0 <= i < |param.entries| => ToPhpString(param.entries[i].1)))
  }

  /** An empty group list stands for the validator's default group. */
  function EffectiveGroups(groups: seq<string>): (r: seq<string>)
    ensures groups == [] ==> r == ["Default"]
    ensures groups != [] ==> r == groups
  {
    if groups == [] then ["Default"] else groups
  }

  /** The constraints of all groups, concatenated in group order. */
  function MergeGroups(pm: PropertyMetadata, groups: seq<string>): seq<Constraint>
    decreases |groups|
  {
    if groups == [] then []
    else MergeGroups(pm, groups[..|groups| - 1]) + FindConstraints(pm, groups[|groups| - 1])
  }

  /** The list with every later copy of an object removed. */
  function Dedup(s: seq<Constraint>): seq<Constraint>
    decreases |s|
  {
    if s == [] then []
    else
      var d := Dedup(s[..|s| - 1]);
      if s[|s| - 1] in d then d else d + [s[|s| - 1]]
  }

  /** `array_filter($list, [$this, 'supportConstraint'])`. */
  function Supported(e: ConstraintExtractor, s: seq<Constraint>): (r: seq<Constraint>)
    decreases |s|
  {
    if s == [] then []
    else if SupportConstraint(e, s[0]) then [s[0]] + Supported(e, s[1..])
    else Supported(e, s[1..])
  }

  /** The list one member's metadata contributes. */
  function FinalList(e: ConstraintExtractor, pm: PropertyMetadata, groups: seq<string>): seq<Constraint>
  {
    Supported(e, Dedup(MergeGroups(pm, groups)))
  }

  /** The lists of all members of one property, concatenated. */
  function PropertyList(e: ConstraintExtractor, pms: seq<PropertyMetadata>, groups: seq<string>): seq<Constraint>
    decreases |pms|
  {
    if pms == [] then []
    else PropertyList(e, pms[..|pms| - 1], groups) + FinalList(e, pms[|pms| - 1], groups)
  }

  /** `isset($schema->properties[$name])`. */
  predicate HasProperty(schema: Node, name: string)
  {
    schema.Schema? && schema.properties.Some? && ArrGet(schema.properties.value, name).Some?
  }

  type PropertyConstraints = seq<(string, seq<Constraint>)>

  /** The loop over the constrained properties, before empty lists are dropped. */
  function Collect(e: ConstraintExtractor, cm: ClassMetadata, schema: Node, groups: seq<string>, names: seq<string>): PropertyConstraints
    decreases |names|
  {
    if names == [] then []
    else
      var acc := Collect(e, cm, schema, groups, names[..|names| - 1]);
      var name := names[|names| - 1];
      if !HasProperty(schema, name) then acc
      else ArrPut(acc, name, PropertyList(e, PropertyMetadataOf(cm, name), groups))
  }

  /** `array_filter($constraints)`: entries holding an empty list are dropped. */
  function DropEmpty(a: PropertyConstraints): (r: PropertyConstraints)
    ensures forall i :: 0 <= i < |r| ==> r[i].1 != [] && r[i] in a
    decreases |a|
  {
    if a == [] then []
    else if a[0].1 == [] then DropEmpty(a[1..])
    else [a[0]] + DropEmpty(a[1..])
  }

  /** `getPropertiesConstraints($class, $schema, $groups)`. */
  function PropertiesConstraints(e: ConstraintExtractor, factory: MetadataFactory, className: string, schema: Node, groupsParam: Value): Result<PropertyConstraints>
  {
    var given :- GroupNames(groupsParam);
    if className !in factory then Success([])
    else
      var cm := factory[className];
      Success(DropEmpty(Collect(e, cm, schema, EffectiveGroups(given), cm.constrainedProperties)))
  }

  // ---------------------------------------------------------------------
  // getPropertiesConstraints, the loops

  method MergeGroupConstraints(pm: PropertyMetadata, groups: seq<string>) returns (r: seq<Constraint>)
    ensures r == MergeGroups(pm, groups)
  {
    r := [];
    var i := 0;
    while i < |groups|
      invariant 0 <= i <= |groups|
      invariant r == MergeGroups(pm, groups[..i])
    {
      assert groups[..i + 1][..i] == groups[..i];
      r := r + FindConstraints(pm, groups[i]);
      i := i + 1;
    }
    assert groups[..|groups|] == groups;
  }

  method RemoveDuplicates(s: seq<Constraint>) returns (r: seq<Constraint>)
    ensures r == Dedup(s)
  {
    r := [];
    var i := 0;
    while i < |s|
      invariant 0 <= i <= |s|
      invariant r == Dedup(s[..i])
    {
      assert s[..i + 1][..i] == s[..i];
      if s[i] !in r {
        r := r + [s[i]];
      }
      i := i + 1;
    }
    assert s[..|s|] == s;
  }

  /** The loop over the members of one property. */
  method PropertyConstraintList(e: ConstraintExtractor, pms: seq<PropertyMetadata>, groups: seq<string>) returns (r: seq<Constraint>)
    ensures r == PropertyList(e, pms, groups)
  {
    r := [];
    var i := 0;
    while i < |pms|
      invariant 0 <= i <= |pms|
      invariant r == PropertyList(e, pms[..i], groups)
    {
      assert pms[..i + 1][..i] == pms[..i];
      var merged := MergeGroupConstraints(pms[i], groups);
      var unique := RemoveDuplicates(merged);
      r := r + Supported(e, unique);
      i := i + 1;
    }
    assert pms[..|pms|] == pms;
  }

  method GetPropertiesConstraints(e: ConstraintExtractor, factory: MetadataFactory, className: string, schema: Node, groupsParam: Value)
    returns (r: Result<PropertyConstraints>)
    ensures r == PropertiesConstraints(e, factory, className, schema, groupsParam)
  {
    var given := GroupNames(groupsParam);
    if given.Failure? {
      return Failure(given.error);
    }
    if className !in factory {
      return Success([]);
    }
    var acc := CollectConstraints(e, factory[className], schema, EffectiveGroups(given.value));
    PropertiesConstraintsKnown(e, factory, className, schema, groupsParam, given.value);
    return Success(DropEmpty(acc));
  }

  lemma PropertiesConstraintsKnown(e: ConstraintExtractor, factory: MetadataFactory, className: string, schema: Node, groupsParam: Value, given: seq<string>)
    requires GroupNames(groupsParam) == Success(given) && className in factory
    ensures PropertiesConstraints(e, factory, className, schema, groupsParam)
      == Success(DropEmpty(Collect(e, factory[className], schema, EffectiveGroups(given), factory[className].constrainedProperties)))
  {
  }

  /** The `foreach` over the constrained properties of one class. */
  method CollectConstraints(e: ConstraintExtractor, cm: ClassMetadata, schema: Node, groups: seq<string>)
    returns (acc: PropertyConstraints)
    ensures acc == Collect(e, cm, schema, groups, cm.constrainedProperties)
  {
    var names := cm.constrainedProperties;
    acc := [];
    var i := 0;
    while i < |names|
      invariant 0 <= i <= |names|
      invariant acc == Collect(e, cm, schema, groups, names[..i])
    {
      assert names[..i + 1][..i] == names[..i];
      var name := names[i];
      if HasProperty(schema, name) {
        var list := PropertyConstraintList(e, PropertyMetadataOf(cm, name), groups);
        acc := ArrPut(acc, name, list);
      }
      i := i + 1;
    }
    assert names[..|names|] == names;
  }

  // ---------------------------------------------------------------------
  // canExtract and extract

  /** `canExtract`: a Schema target, a ReflectionClass source and at least one constrained property. */
  function CanExtract(e: ConstraintExtractor, factory: MetadataFactory, source: Source, target: References.Item, groupsParam: Value): (r: Result<bool>)
    ensures !(target.ItemNode? && target.node.Schema? && source.SourceClass?) ==> r == Success(false)
    ensures source.SourceClass? && source.name !in factory && groupsParam.VArr? ==> r == Success(false)
  {
    if !(target.ItemNode? && target.node.Schema?) then Success(false)
    else if !source.SourceClass? then Success(false)
    else
      var pc :- PropertiesConstraints(e, factory, source.name, target.node, groupsParam);
      Success(|pc| > 0)
  }

  /** The fields of the ConstraintExtractionContext handed to `extractConstraint`. */
  datatype ConstraintExtractionContext = ConstraintExtractionContext(
    classSchema: Node,
    context: string,
    propertySchema: Option<Node>,
    propertyName: string)

  /** `$target->properties[$name]`, null when there is no such entry. */
  function PropertyOf(t: Node, name: string): Option<Node>
  {
    if t.Schema? && t.properties.Some? then ArrGet(t.properties.value, name) else None
  }

  /** The context as it stands when the call for `name` is made on the current target. */
  function ContextFor(t: Node, name: string): (c: ConstraintExtractionContext)
    ensures c.classSchema == t && c.propertyName == name && c.context == "property"
    ensures c.propertySchema == PropertyOf(t, name)
  {
    ConstraintExtractionContext(t, "property", PropertyOf(t, name), name)
  }

  /** One `extractConstraint` call: the constraint and the context it saw. */
  datatype Call = Call(constraint: Constraint, context: ConstraintExtractionContext)

  /** `extractConstraint`: the class schema after the call (it may change the property schema it holds). */
  type Effect = (Constraint, ConstraintExtractionContext) -> Node

  /** A property's constraints, each tagged with the property's name. */
  function Tag(name: string, cs: seq<Constraint>): (r: seq<(string, Constraint)>)
    ensures |r| == |cs| && forall k :: 0 <= k < |cs| ==> r[k] == (name, cs[k])
  {
    seq(|cs|, k requires 0 <= k < |cs| => (name, cs[k]))
  }

  /** Every (property, constraint) pair in iteration order. */
  function Pairs(pc: PropertyConstraints): seq<(string, Constraint)>
    decreases |pc|
  {
    if pc == [] then [] else Pairs(pc[..|pc| - 1]) + Tag(pc[|pc| - 1].0, pc[|pc| - 1].1)
  }

  /** The calls made for `pairs`, in order, from the target `t`. */
  function Run(pairs: seq<(string, Constraint)>, t: Node, effect: Effect): (Node, seq<Call>)
    decreases |pairs|
  {
    if pairs == [] then (t, [])
    else
      var prior := Run(pairs[..|pairs| - 1], t, effect);
      var (name, c) := pairs[|pairs| - 1];
      var ctx := ContextFor(prior.0, name);
      (effect(c, ctx), prior.1 + [Call(c, ctx)])
  }

  datatype Outcome = Outcome(target: References.Item, calls: seq<Call>)

  /**
   * `extract`: nothing happens unless `canExtract`; then one call per
   * (property, constraint). `canExtract` and `extract` compute the same
   * selection, so it is computed once here.
   */
  function ExtractSpec(e: ConstraintExtractor, factory: MetadataFactory, source: Source, target: References.Item, groupsParam: Value, effect: Effect): (r: Result<Outcome>)
  {
    if !(target.ItemNode? && target.node.Schema? && source.SourceClass?) then Success(Outcome(target, []))
    else ConstraintsApplied(PropertiesConstraints(e, factory, source.name, target.node, groupsParam), target, effect)
  }

  /** What `extract` does once the properties' constraints are selected (or their selection failed). */
  function ConstraintsApplied(selected: Result<PropertyConstraints>, target: References.Item, effect: Effect): (r: Result<Outcome>)
    requires target.ItemNode?
  {
    match selected
    case Failure(err) => Failure(err)
    case Success(pc) =>
      if |pc| == 0 then Success(Outcome(target, []))
      else
        var run := Run(Pairs(pc), target.node, effect);
        Success(Outcome(References.ItemNode(run.0), run.1))
  }

  lemma RunSnoc(pairs: seq<(string, Constraint)>, x: (string, Constraint), t: Node, effect: Effect)
    ensures Run(pairs + [x], t, effect)
      == (effect(x.1, ContextFor(Run(pairs, t, effect).0, x.0)),
          Run(pairs, t, effect).1 + [Call(x.1, ContextFor(Run(pairs, t, effect).0, x.0))])
  {
    assert (pairs + [x])[..|pairs|] == pairs;
  }

  /** The inner loop: the calls for one property's constraints. */
  method RunProperty(name: string, cs: seq<Constraint>, t0: Node, calls0: seq<Call>, effect: Effect,
                     ghost before: seq<(string, Constraint)>, ghost origin: Node)
    returns (t: Node, calls: seq<Call>)
    requires (t0, calls0) == Run(before, origin, effect)
    ensures (t, calls) == Run(before + Tag(name, cs), origin, effect)
  {
    t, calls := t0, calls0;
    var j := 0;
    assert before + Tag(name, cs[..0]) == before;
    while j < |cs|
      invariant 0 <= j <= |cs|
      invariant (t, calls) == Run(before + Tag(name, cs[..j]), origin, effect)
    {
      ghost var prefix := before + Tag(name, cs[..j]);
      assert before + Tag(name, cs[..j + 1]) == prefix + [(name, cs[j])];
      RunSnoc(prefix, (name, cs[j]), origin, effect);
      var ctx := ContextFor(t, name);
      calls := calls + [Call(cs[j], ctx)];
      t := effect(cs[j], ctx);
      j := j + 1;
    }
    assert cs[..|cs|] == cs;
  }

  /** The outer loop, over the selected properties. */
  method RunAll(pc: PropertyConstraints, origin: Node, effect: Effect) returns (t: Node, calls: seq<Call>)
    ensures (t, calls) == Run(Pairs(pc), origin, effect)
  {
    t := origin;
    calls := [];
    var i := 0;
    while i < |pc|
      invariant 0 <= i <= |pc|
      invariant (t, calls) == Run(Pairs(pc[..i]), origin, effect)
    {
      assert pc[..i + 1][..i] == pc[..i];
      assert Pairs(pc[..i + 1]) == Pairs(pc[..i]) + Tag(pc[i].0, pc[i].1);
      t, calls := RunProperty(pc[i].0, pc[i].1, t, calls, effect, Pairs(pc[..i]), origin);
      i := i + 1;
    }
    assert pc[..|pc|] == pc;
  }

  method Extract(e: ConstraintExtractor, factory: MetadataFactory, source: Source, target: References.Item, groupsParam: Value, effect: Effect)
    returns (r: Result<Outcome>)
    ensures r == ExtractSpec(e, factory, source, target, groupsParam, effect)
  {
    if !(target.ItemNode? && target.node.Schema? && source.SourceClass?) {
      return Success(Outcome(target, []));
    }
    var selected := GetPropertiesConstraints(e, factory, source.name, target.node, groupsParam);
    r := ApplyConstraints(selected, target, effect);
  }

  /** The error of the selection, the untouched target, or the run of both loops. */
  method ApplyConstraints(selected: Result<PropertyConstraints>, target: References.Item, effect: Effect)
    returns (r: Result<Outcome>)
    requires target.ItemNode?
    ensures r == ConstraintsApplied(selected, target, effect)
  {
    if selected.Failure? {
      return Failure(selected.error);
    }
    var pc := selected.value;
    if |pc| == 0 {
      return Success(Outcome(target, []));
    }
    var t, calls := RunAll(pc, target.node, effect);
    r := Success(Outcome(References.ItemNode(t), calls));
  }

  // ---------------------------------------------------------------------
  // Properties

  /** A class the validator knows nothing about has no constraints, so the extractor does not apply. */
  lemma NoMetadataNoConstraints(e: ConstraintExtractor, factory: MetadataFactory, className: string, schema: Node, groupsParam: Value)
    requires className !in factory && groupsParam.VArr?
    ensures PropertiesConstraints(e, factory, className, schema, groupsParam) == Success([])
    ensures CanExtract(e, factory, SourceClass(className), References.ItemNode(schema), groupsParam) == Success(false)
  {
  }

  /** A missing `validation-groups` parameter reads as the empty array, which selects the default group. */
  lemma MissingGroupsSelectDefault<G>(context: ExtractionContext<G>)
    requires !context.HasParameter("validation-groups")
    ensures GroupNames(context.GetParameter("validation-groups", VArr([]))) == Success([])
    ensures EffectiveGroups([]) == ["Default"]
  {
  }

  lemma {:induction false} MergeGroupsMembers(pm: PropertyMetadata, groups: seq<string>, c: Constraint)
    ensures c in MergeGroups(pm, groups) <==> exists g :: g in groups && c in FindConstraints(pm, g)
    decreases |groups|
  {
    if groups != [] {
      var init := groups[..|groups| - 1];
      var last := groups[|groups| - 1];
      MergeGroupsMembers(pm, init, c);
      assert groups == init + [last];
      if c in FindConstraints(pm, last) {
        assert last in groups;
      }
      if exists g :: g in init && c in FindConstraints(pm, g) {
        var g :| g in init && c in FindConstraints(pm, g);
        assert g in groups;
      }
      if exists g :: g in groups && c in FindConstraints(pm, g) {
        var g :| g in groups && c in FindConstraints(pm, g);
        assert g in init || g == last;
      }
    }
  }

  predicate NoDuplicates(s: seq<Constraint>)
  {
    forall i, j :: 0 <= i < j < |s| ==> s[i] != s[j]
  }

  /** Removing duplicates keeps exactly the objects of the list, each once. */
  lemma {:induction false} DedupMembers(s: seq<Constraint>)
    ensures forall c :: c in Dedup(s) <==> c in s
    ensures NoDuplicates(Dedup(s))
    decreases |s|
  {
    if s != [] {
      var init := s[..|s| - 1];
      DedupMembers(init);
      assert s == init + [s[|s| - 1]];
    }
  }

  /** The first occurrences come in their original order: removing duplicates from a prefix gives a prefix of the result. */
  lemma {:induction false} DedupPrefix(s: seq<Constraint>, i: nat)
    requires i <= |s|
    ensures Dedup(s[..i]) <= Dedup(s)
    decreases |s| - i
  {
    if i < |s| {
      DedupPrefix(s, i + 1);
      assert s[..i + 1][..i] == s[..i];
    } else {
      assert s[..i] == s;
    }
  }

  /** A list without repeated objects is kept as it is. */
  lemma {:induction false} DedupDistinct(s: seq<Constraint>)
    requires NoDuplicates(s)
    ensures Dedup(s) == s
    decreases |s|
  {
    if s != [] {
      var init := s[..|s| - 1];
      DedupDistinct(init);
      assert s[|s| - 1] !in init by {
        forall k | 0 <= k < |init| ensures init[k] != s[|s| - 1] {
          assert init[k] == s[k];
        }
      }
      assert s == init + [s[|s| - 1]];
    }
  }

  lemma {:induction false} SupportedMembers(e: ConstraintExtractor, s: seq<Constraint>)
    ensures forall c :: c in Supported(e, s) <==> c in s && SupportConstraint(e, c)
    ensures NoDuplicates(s) ==> NoDuplicates(Supported(e, s))
    decreases |s|
  {
    if s != [] {
      SupportedMembers(e, s[1..]);
      assert s == [s[0]] + s[1..];
      if NoDuplicates(s) {
        assert NoDuplicates(s[1..]) by {
          forall i, j | 0 <= i < j < |s[1..]| ensures s[1..][i] != s[1..][j] {
            assert s[1..][i] == s[i + 1] && s[1..][j] == s[j + 1];
          }
        }
        assert s[0] !in s[1..] by {
          forall k | 0 <= k < |s[1..]| ensures s[1..][k] != s[0] {
            assert s[1..][k] == s[k + 1];
          }
        }
      }
    }
  }

  /**
   * One member's list: the supported constraints found under some group, each
   * object once.
   */
  lemma FinalListMembers(e: ConstraintExtractor, pm: PropertyMetadata, groups: seq<string>, c: Constraint)
    ensures c in FinalList(e, pm, groups) <==>
      SupportConstraint(e, c) && exists g :: g in groups && c in FindConstraints(pm, g)
    ensures NoDuplicates(FinalList(e, pm, groups))
  {
    var merged := MergeGroups(pm, groups);
    MergeGroupsMembers(pm, groups, c);
    DedupMembers(merged);
    SupportedMembers(e, Dedup(merged));
  }

  /** A property's list holds exactly what one of its members contributes. */
  lemma {:induction false} PropertyListMembers(e: ConstraintExtractor, pms: seq<PropertyMetadata>, groups: seq<string>, c: Constraint)
    ensures c in PropertyList(e, pms, groups) <==> exists k :: 0 <= k < |pms| && c in FinalList(e, pms[k], groups)
    decreases |pms|
  {
    if pms != [] {
      var init, last := pms[..|pms| - 1], pms[|pms| - 1];
      PropertyListMembers(e, init, groups, c);
      var prior, own := PropertyList(e, init, groups), FinalList(e, last, groups);
      assert PropertyList(e, pms, groups) == prior + own;
      if c in prior {
        var k :| 0 <= k < |init| && c in FinalList(e, init[k], groups);
        assert pms[k] == init[k];
      } else if c in own {
        assert c in FinalList(e, pms[|pms| - 1], groups);
      } else {
        forall k | 0 <= k < |pms| ensures c !in FinalList(e, pms[k], groups) {
          if k < |init| {
            assert pms[k] == init[k];
            assert !(0 <= k < |init| && c in FinalList(e, init[k], groups));
          } else {
            assert pms[k] == last;
          }
        }
      }
    }
  }

  predicate DistinctNames(a: PropertyConstraints)
  {
    forall i, j :: 0 <= i < j < |a| ==> a[i].0 != a[j].0
  }

  /** Before the final filter, a name has an entry exactly when it is constrained and present in the schema. */
  lemma {:induction false} CollectLookup(e: ConstraintExtractor, cm: ClassMetadata, schema: Node, groups: seq<string>, names: seq<string>, k: string)
    ensures ArrGet(Collect(e, cm, schema, groups, names), k)
      == if k in names && HasProperty(schema, k) then Some(PropertyList(e, PropertyMetadataOf(cm, k), groups)) else None
    decreases |names|
  {
    if names != [] {
      var init := names[..|names| - 1];
      var name := names[|names| - 1];
      assert names == init + [name];
      CollectLookup(e, cm, schema, groups, init, k);
      var acc := Collect(e, cm, schema, groups, init);
      if HasProperty(schema, name) {
        var list := PropertyList(e, PropertyMetadataOf(cm, name), groups);
        if name == k {
          GetAfterPut(acc, name, list);
        } else {
          GetOtherAfterPut(acc, name, list, k);
        }
      }
    }
  }

  lemma {:induction false} CollectDistinct(e: ConstraintExtractor, cm: ClassMetadata, schema: Node, groups: seq<string>, names: seq<string>)
    ensures DistinctNames(Collect(e, cm, schema, groups, names))
    decreases |names|
  {
    if names != [] {
      var init := names[..|names| - 1];
      var name := names[|names| - 1];
      CollectDistinct(e, cm, schema, groups, init);
      var acc := Collect(e, cm, schema, groups, init);
      if HasProperty(schema, name) {
        var list := PropertyList(e, PropertyMetadataOf(cm, name), groups);
        var r := ArrPut(acc, name, list);
        PutKeys(acc, name, list);
        assert forall i :: 0 <= i < |r| ==> r[i].0 == KeysOf(r)[i];
        assert forall i :: 0 <= i < |acc| ==> acc[i].0 == KeysOf(acc)[i];
        if name !in KeysOf(acc) {
          assert KeysOf(r)[|acc|] == name;
        }
      }
    }
  }

  lemma {:induction false} DropEmptyLookup(a: PropertyConstraints, k: string)
    requires DistinctNames(a)
    ensures ArrGet(DropEmpty(a), k) == if ArrGet(a, k).Some? && ArrGet(a, k).value != [] then ArrGet(a, k) else None
    decreases |a|
  {
    if a != [] {
      var rest := a[1..];
      assert DistinctNames(rest) by {
        forall i, j | 0 <= i < j < |rest| ensures rest[i].0 != rest[j].0 {
          assert rest[i] == a[i + 1] && rest[j] == a[j + 1];
        }
      }
      DropEmptyLookup(rest, k);
      if a[0].0 == k {
        assert forall i :: 0 <= i < |rest| ==> rest[i].0 != k by {
          forall i | 0 <= i < |rest| ensures rest[i].0 != k {
            assert rest[i] == a[i + 1];
          }
        }
        assert ArrGet(rest, k).None?;
      }
    }
  }

  /**
   * The selection: a property has an entry exactly when the validator
   * constrains it, the schema already holds it and its list is non-empty;
   * the entry is that property's list.
   */
  lemma PropertiesConstraintsLookup(e: ConstraintExtractor, factory: MetadataFactory, className: string, schema: Node, groupsParam: Value, k: string)
    requires groupsParam.VArr? && className in factory
    ensures var r := PropertiesConstraints(e, factory, className, schema, groupsParam).value;
      var cm := factory[className];
      var list := PropertyList(e, PropertyMetadataOf(cm, k), EffectiveGroups(GroupNames(groupsParam).value));
      ArrGet(r, k) == if k in cm.constrainedProperties && HasProperty(schema, k) && list != [] then Some(list) else None
  {
    var cm := factory[className];
    var groups := EffectiveGroups(GroupNames(groupsParam).value);
    CollectLookup(e, cm, schema, groups, cm.constrainedProperties, k);
    CollectDistinct(e, cm, schema, groups, cm.constrainedProperties);
    DropEmptyLookup(Collect(e, cm, schema, groups, cm.constrainedProperties), k);
  }

  /** A property the schema does not hold never gets constraints, whatever the validator says. */
  lemma AbsentPropertyIgnored(e: ConstraintExtractor, factory: MetadataFactory, className: string, schema: Node, groupsParam: Value, k: string)
    requires groupsParam.VArr? && !HasProperty(schema, k)
    ensures ArrGet(PropertiesConstraints(e, factory, className, schema, groupsParam).value, k).None?
  {
    if className in factory {
      PropertiesConstraintsLookup(e, factory, className, schema, groupsParam, k);
    }
  }

  /**
   * The calls follow the pairs one to one, in order: the k-th call gets the
   * k-th constraint with the context naming its property, holding that
   * property as the class schema had it at that moment.
   */
  lemma {:induction false} RunTrace(pairs: seq<(string, Constraint)>, t: Node, effect: Effect)
    ensures |Run(pairs, t, effect).1| == |pairs|
    ensures forall k :: 0 <= k < |pairs| ==>
      var call := Run(pairs, t, effect).1[k];
      call.constraint == pairs[k].1 && call.context.propertyName == pairs[k].0
      && call.context.context == "property"
      && call.context.propertySchema == PropertyOf(call.context.classSchema, pairs[k].0)
    ensures pairs != [] ==> Run(pairs, t, effect).1[0].context.classSchema == t
    decreases |pairs|
  {
    if pairs != [] {
      var init := pairs[..|pairs| - 1];
      RunTrace(init, t, effect);
      if init == [] {
        assert Run(init, t, effect) == (t, []);
      }
    }
  }

  /** The pairs are exactly the constraints of each selected property, tagged with its name. */
  lemma {:induction false} PairsMembers(pc: PropertyConstraints, name: string, c: Constraint)
    ensures (name, c) in Pairs(pc) <==> exists i :: 0 <= i < |pc| && pc[i].0 == name && c in pc[i].1
    decreases |pc|
  {
    if pc != [] {
      var init := pc[..|pc| - 1];
      var last := pc[|pc| - 1];
      PairsMembers(init, name, c);
      var tagged := Tag(last.0, last.1);
      assert Pairs(pc) == Pairs(init) + tagged;
      assert (name, c) in Pairs(pc) <==> (name, c) in Pairs(init) || (name, c) in tagged;
      assert (name, c) in tagged <==> last.0 == name && c in last.1 by {
        if (name, c) in tagged {
          var k :| 0 <= k < |tagged| && tagged[k] == (name, c);
        }
        if last.0 == name && c in last.1 {
          var k :| 0 <= k < |last.1| && last.1[k] == c;
          assert tagged[k] == (name, c);
        }
      }
      if exists i :: 0 <= i < |init| && init[i].0 == name && c in init[i].1 {
        var i :| 0 <= i < |init| && init[i].0 == name && c in init[i].1;
        assert pc[i] == init[i];
      }
      if exists i :: 0 <= i < |pc| && pc[i].0 == name && c in pc[i].1 {
        var i :| 0 <= i < |pc| && pc[i].0 == name && c in pc[i].1;
        if i < |init| {
          assert pc[i] == init[i];
        }
      }
    }
  }

  /**
   * `extract` on an applicable class makes one call per selected (property,
   * constraint) pair and no other, and each call sees the property as the
   * target holds it at that moment.
   */
  lemma ExtractCalls(e: ConstraintExtractor, factory: MetadataFactory, source: Source, target: References.Item, groupsParam: Value, effect: Effect)
    requires CanExtract(e, factory, source, target, groupsParam) == Success(true)
    ensures var r := ExtractSpec(e, factory, source, target, groupsParam, effect);
      var pairs := Pairs(PropertiesConstraints(e, factory, source.name, target.node, groupsParam).value);
      r.Success? && |r.value.calls| == |pairs|
      && forall k :: 0 <= k < |pairs| ==>
        r.value.calls[k].constraint == pairs[k].1 && r.value.calls[k].context.propertyName == pairs[k].0
        && r.value.calls[k].context.propertySchema == PropertyOf(r.value.calls[k].context.classSchema, pairs[k].0)
  {
    var pairs := Pairs(PropertiesConstraints(e, factory, source.name, target.node, groupsParam).value);
    RunTrace(pairs, target.node, effect);
  }

  /** `extract` returns without touching the target when `canExtract` is false, and fails exactly when `canExtract` does. */
  lemma ExtractGuard(e: ConstraintExtractor, factory: MetadataFactory, source: Source, target: References.Item, groupsParam: Value, effect: Effect)
    ensures CanExtract(e, factory, source, target, groupsParam) == Success(false)
      ==> ExtractSpec(e, factory, source, target, groupsParam, effect) == Success(Outcome(target, []))
    ensures ExtractSpec(e, factory, source, target, groupsParam, effect).Failure?
      <==> CanExtract(e, factory, source, target, groupsParam).Failure?
  {
  }
}
