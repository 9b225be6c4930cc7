// The decision rules of Extraction/Extractor/TypeSchemaExtractor.php: the
// classification of a type string, the primitive type table, how the
// definition name and model context are found, the merge of serializer
// groups, and the per-model ledger of group hashes. The `extract` method
// itself calls back into the generator and lives with it in module Engine.

module TypeSchema {
  import opened Wrappers
  import opened PhpValues
  import opened Strings
  import opened OpenApiSchema
  import opened Document

  /** The array `getPrimitiveType` returns: `type`, and `format`, `subType`, `class` when set. */
  datatype PrimitiveType = PrimitiveType(
    typeName: string, format: Option<string>, subType: Option<string>, className: Option<string>)

  function Primitive(t: string, f: Option<string>): PrimitiveType
  {
    PrimitiveType(t, f, None, None)
  }

  /** `convertType`: the fixed table of PHP and doc-block type names. */
  function ConvertType(t: string): (r: Option<PrimitiveType>)
    ensures r.Some? ==> r.value.subType.None? && r.value.className.None?
  {
    match t
    case "int" => Some(Primitive("integer", Some("int32")))
    case "integer" => Some(Primitive("integer", Some("int32")))
    case "long" => Some(Primitive("integer", Some("int64")))
    case "float" => Some(Primitive("number", Some("float")))
    case "double" => Some(Primitive("number", Some("double")))
    case "string" => Some(Primitive("string", None))
    case "byte" => Some(Primitive("string", Some("byte")))
    case "bool" => Some(Primitive("boolean", None))
    case "boolean" => Some(Primitive("boolean", None))
    case "date" => Some(Primitive("string", Some("date")))
    case "DateTime" => Some(Primitive("string", Some("date-time")))
    case "dateTime" => Some(Primitive("string", Some("date-time")))
    case "password" => Some(Primitive("string", Some("password")))
    case "array" => Some(Primitive("array", None))
    case "stdClass" => Some(Primitive("object", None))
    case _ => None
  }

  const TableTypes: set<string> :=
    {"int", "integer", "long", "float", "double", "string", "byte", "bool", "boolean",
     "date", "DateTime", "dateTime", "password", "array", "stdClass"}

  /** The table knows exactly its fifteen names; any other string gives null. */
  lemma ConvertTypeDomain(t: string)
    ensures ConvertType(t).Some? <==> t in TableTypes
  {
  }

  /** Every table entry is one of the six OpenAPI data types; only stdClass is an object, with no class. */
  lemma ConvertTypeRange(t: string)
    requires ConvertType(t).Some?
    ensures ConvertType(t).value.typeName in {"integer", "number", "string", "boolean", "array", "object"}
    ensures ConvertType(t).value.typeName == "object" <==> t == "stdClass"
    ensures ConvertType(t).value.typeName == "integer" <==> t in {"int", "integer", "long"}
  {
  }

  /** `substr($type, 0, -2)`: all but the last two characters, or "" for a shorter string. */
  function DropLastTwo(t: string): string
  {
    if |t| >= 2 then t[..|t| - 2] else ""
  }

  /**
   * `getPrimitiveType` as written: every "[]" is removed, and the result is
   * accepted as the item type when it equals the type without its last two
   * characters.
   */
  function GetPrimitiveTypeAsWritten(source: Value, classes: set<string>): (r: Option<PrimitiveType>)
    ensures !source.VStr? ==> r.None?
    ensures r.Some? && r.value.subType.Some? ==>
      r.value.typeName == "array" && source.VStr? && r.value.subType.value == DropLastTwo(source.s)
    ensures source.VStr? && !Contains(source.s, "[]") ==> r == GetPrimitiveType(source, classes)
  {
    if !source.VStr? then None
    else
      var t := source.s;
      var typeOfArray := ReplaceAll(t, "[]", "");
      assert !Contains(t, "[]") ==> typeOfArray == t by {
        if !Contains(t, "[]") {
          ReplaceAllAbsent(t, "[]", "");
        }
      }
      if typeOfArray != t then
        (if typeOfArray != DropLastTwo(t) then None
         else Some(PrimitiveType("array", None, Some(typeOfArray), None)))
      else if ConvertType(t).Some? then ConvertType(t)
      else if t in classes then Some(PrimitiveType("object", None, None, Some(t)))
      else None
  }

  /** The type with its one trailing "[]" marker removed, when that is its only "[]". */
  predicate IsArrayOf(t: string, item: string)
  {
    t == item + "[]" && !Contains(item, "[]")
  }

  /**
   * `getPrimitiveType` as intended: a type is an array exactly when it is an
   * item type followed by a single trailing "[]"; any other use of "[]" is
   * rejected. `classes` is the set of names `class_exists` accepts.
   */
  function GetPrimitiveType(source: Value, classes: set<string>): (r: Option<PrimitiveType>)
    ensures source.VStr? && r.Some? && r.value.subType.Some? ==> IsArrayOf(source.s, r.value.subType.value)
    ensures r.Some? && r.value.subType.Some? ==> r.value.typeName == "array"
    ensures !source.VStr? ==> r.None?
  {
    if !source.VStr? then None
    else
      var t := source.s;
      if Contains(t, "[]") then
        (if |t| >= 2 && t[|t| - 2..] == "[]" && !Contains(t[..|t| - 2], "[]")
         then (assert t == t[..|t| - 2] + "[]"; Some(PrimitiveType("array", None, Some(t[..|t| - 2]), None)))
         else None)
      else if ConvertType(t).Some? then ConvertType(t)
      else if t in classes then Some(PrimitiveType("object", None, None, Some(t)))
      else None
  }

  lemma ContainsSuffixMarker(item: string)
    ensures Contains(item + "[]", "[]")
    decreases |item|
  {
    var s := item + "[]";
    if item != [] {
      assert s[1..] == item[1..] + "[]";
      ContainsSuffixMarker(item[1..]);
    } else {
      assert StartsWith(s, "[]");
    }
  }

  /** `T[]` with no other "[]" in T is the array of T, for every T. */
  lemma ArrayTypeClassified(item: string, classes: set<string>)
    requires !Contains(item, "[]")
    ensures GetPrimitiveType(VStr(item + "[]"), classes) == Some(PrimitiveType("array", None, Some(item), None))
  {
    var t := item + "[]";
    ContainsSuffixMarker(item);
    assert t[|t| - 2..] == "[]" && t[..|t| - 2] == item;
  }

  /** On every type with no "[]" at all, and on every well-formed `T[]`, the code as written agrees. */
  lemma AsWrittenAgrees(source: Value, classes: set<string>)
    requires source.VStr? ==>
      !Contains(source.s, "[]") || exists item :: IsArrayOf(source.s, item)
    ensures GetPrimitiveTypeAsWritten(source, classes) == GetPrimitiveType(source, classes)
  {
    if source.VStr? {
      var t := source.s;
      if !Contains(t, "[]") {
        ReplaceAllAbsent(t, "[]", "");
      } else {
        var item :| IsArrayOf(t, item);
        RemoveTrailingMarker(item);
        ArrayTypeClassified(item, classes);
        assert DropLastTwo(t) == item;
      }
    }
  }

  /** As written, "A[][" is taken for an array of "A[", although its "[]" is not a trailing marker. */
  lemma AsWrittenAcceptsMisplacedMarker(classes: set<string>)
    ensures GetPrimitiveTypeAsWritten(VStr("A[]["), classes) == Some(PrimitiveType("array", None, Some("A["), None))
    ensures GetPrimitiveType(VStr("A[]["), classes).None?
  {
    var t := "A[][";
    assert !StartsWith(t, "[]");
    assert t[1..] == "[][";
    assert StartsWith(t[1..], "[]");
    assert t[1..][2..] == "[";
    assert !StartsWith("[", "[]");
    assert ReplaceAll("[", "[]", "") == "[" by {
      assert "["[1..] == [];
    }
    assert ReplaceAll(t[1..], "[]", "") == "[";
    assert ReplaceAll(t, "[]", "") == "A[";
    assert Contains(t, "[]") by {
      ContainsTail(t, "[]");
    }
    assert t[|t| - 2..] == "][";
  }

  /** Both readings reject "A[][]" and "A[]B": the marker must be single and trailing. */
  lemma MalformedArrayTypesRejected(classes: set<string>)
    ensures GetPrimitiveType(VStr("A[][]"), classes).None?
    ensures GetPrimitiveType(VStr("A[]B"), classes).None?
  {
    var t := "A[][]";
    assert t[1..] == "[][]" && StartsWith(t[1..], "[]");
    ContainsTail(t, "[]");
    assert t[..|t| - 2] == "A[]";
    assert "A[]"[1..] == "[]" && StartsWith("A[]"[1..], "[]");
    ContainsTail("A[]", "[]");
    var u := "A[]B";
    assert u[1..] == "[]B" && StartsWith(u[1..], "[]");
    ContainsTail(u, "[]");
    assert u[|u| - 2..] == "]B";
  }

  /** canExtract's classification: a non-string source is never a type. */
  lemma NonStringSourceUnclassified(source: Value, classes: set<string>)
    requires !source.VStr?
    ensures GetPrimitiveType(source, classes).None? && GetPrimitiveTypeAsWritten(source, classes).None?
  {
  }

  // ---------------------------------------------------------------------
  // Names

  /** `getAliasFor`: the registered alias, or the class name unchanged. */
  function AliasFor(aliases: map<string, string>, className: string): (r: string)
    ensures className !in aliases ==> r == className
    ensures className in aliases ==> r == aliases[className]
  {
    if className in aliases then aliases[className] else className
  }

  /** The definition name: the alias-applied class name with every `\` written as `.`. */
  function DefinitionName(name: string): (r: string)
    ensures '\\' !in r
    ensures |r| == |name| && forall i :: 0 <= i < |r| ==> (r[i] == '/' <==> name[i] == '/')
  {
    ReplaceCharRemoves(name, '\\', '.');
    ReplaceCharPointwise(name, '\\', '.');
    ReplaceAll(name, "\\", ".")
  }

  /**
   * Without a slash in the (alias-applied) name, the definition name is its
   * own sanitized form, so `hasSchema`, `addSchema` and the direct lookup
   * `schemas[$definitionName]` all use the same key, and the reference the
   * extractor writes resolves to that key.
   */
  lemma DefinitionNameStable(name: string)
    requires '/' !in name
    ensures '/' !in DefinitionName(name)
    ensures Sanitize(DefinitionName(name)) == DefinitionName(name)
  {
    var d := DefinitionName(name);
    assert '/' !in d;
    SanitizeFixed(d);
  }

  /**
   * With an alias that starts with '/', the definition is registered under
   * the sanitized name while `schemas[$definitionName]` reads the raw one,
   * which is then missing.
   */
  lemma EdgeSlashAliasMissesDefinition(model: string)
    requires model != [] && '/' !in model && '\\' !in model
    ensures DefinitionName("/" + model) == "/" + model
    ensures Sanitize(DefinitionName("/" + model)) == model
    ensures model != "/" + model
  {
    var s := "/" + model;
    assert '\\' !in s;
    AbsentCharNotContained(s, '\\');
    ReplaceAllAbsent(s, "\\", ".");
    ReplaceAllAbsent(s, "\\", "/");
    assert s[1..] == model;
    assert LTrim(model, {'/'}) == model;
    assert LTrim(s, {'/'}) == model;
    assert RTrim(model, {'/'}) == model;
    assert |model| != |s|;
  }

  /**
   * The parameter that holds the model context: `<direction>-model-context`
   * when a truthy direction is set, else `model-context`.
   */
  function ModelContextKey(direction: Value): (k: string)
    ensures Truthy(direction) ==> k == ToPhpString(direction) + "-model-context"
    ensures !Truthy(direction) ==> k == "model-context"
  {
    if Truthy(direction) then ToPhpString(direction) + "-model-context" else "model-context"
  }

  // ---------------------------------------------------------------------
  // Serializer groups

  /** `$modelSchema->getCustomProperty('serializerGroups') ?: []`, which array_merge and getHash need as an array. */
  function PreviousGroups(stored: Value): Result<Entries>
  {
    if !Truthy(stored) then Success([])
    else if stored.VArr? then Success(stored.entries)
    else Failure(EngineError("TypeError: the stored serializer groups are not an array"))
  }

  /**
   * `isset($context['serializer-groups'])` and its value. A null or false
   * context becomes an array when written to; any other non-array context
   * makes the write `$context['serializer-groups'] = ...` throw.
   */
  function IncomingGroups(context: Value): Result<Option<Value>>
  {
    if context == VNull || context == VBool(false) then Success(None)
    else if context.VArr? then
      var g := ArrGet(context.entries, StrKey("serializer-groups"));
      Success(if g.Some? && g.value != VNull then Some(g.value) else None)
    else Failure(EngineError("Error: the model context cannot be used as an array"))
  }

  /** The list stored back on the definition (lines 107-113). */
  function MergedGroups(stored: Value, context: Value): Result<Entries>
  {
    var previous :- PreviousGroups(stored);
    var incoming :- IncomingGroups(context);
    if incoming.None? then Success(previous)
    else if !incoming.value.VArr? then Failure(EngineError("TypeError: array_merge(): Argument #2 must be of type array"))
    else Success(ArrayUnique(ArrayMerge(previous, incoming.value.entries)))
  }

  /** Without incoming groups the previous list is kept exactly. */
  lemma MergeWithoutIncoming(stored: Value, context: Value)
    requires PreviousGroups(stored).Success? && IncomingGroups(context) == Success(None)
    ensures MergedGroups(stored, context) == Success(if Truthy(stored) then stored.entries else [])
  {
  }

  /**
   * With group lists on both sides, the merge holds the groups of both,
   * each once, and is again a list.
   */
  lemma MergeIsUnion(previous: Entries, incoming: Entries)
    requires IntKeyed(previous) && IntKeyed(incoming)
    ensures var m := ArrayUnique(ArrayMerge(previous, incoming));
      StringSet(m) == StringSet(previous) + StringSet(incoming)
      && IntKeyed(m)
      && forall i, j :: 0 <= i < j < |m| ==> ToPhpString(m[i].1) != ToPhpString(m[j].1)
  {
    MergeLists(previous, incoming);
    UniqueProperties(ArrayMerge(previous, incoming));
  }

  lemma RenumberIntStep(acc: Entries, next: int, x: (Key, Value), rest: Entries)
    requires x.0.IntKey?
    ensures Renumber(acc, next, [x] + rest) == Renumber(acc + [(IntKey(next), x.1)], next + 1, rest)
  {
    assert ([x] + rest)[1..] == rest;
  }

  lemma UniqueStep(x: (Key, Value), rest: Entries, seen: set<string>)
    ensures UniqueFrom([x] + rest, seen)
      == if ToPhpString(x.1) in seen then UniqueFrom(rest, seen)
         else [x] + UniqueFrom(rest, seen + {ToPhpString(x.1)})
  {
    assert ([x] + rest)[1..] == rest;
  }

  /**
   * array_unique keeps keys, so a merge can leave a gap: merging ["a"] with
   * ["a", "b"] stores [0 => "a", 2 => "b"].
   */
  lemma MergeLeavesKeyGap()
    ensures ArrayUnique(ArrayMerge([(IntKey(0), VStr("a"))], [(IntKey(0), VStr("a")), (IntKey(1), VStr("b"))]))
      == [(IntKey(0), VStr("a")), (IntKey(2), VStr("b"))]
  {
    var a, b := VStr("a"), VStr("b");
    var none: Entries := [];
    assert [(IntKey(0), a)] + [(IntKey(0), a), (IntKey(1), b)] == [(IntKey(0), a)] + ([(IntKey(0), a)] + [(IntKey(1), b)]);
    RenumberIntStep(none, 0, (IntKey(0), a), [(IntKey(0), a), (IntKey(1), b)]);
    assert none + [(IntKey(0), a)] == [(IntKey(0), a)];
    RenumberIntStep([(IntKey(0), a)], 1, (IntKey(0), a), [(IntKey(1), b)]);
    RenumberIntStep([(IntKey(0), a), (IntKey(1), a)], 2, (IntKey(1), b), []);
    var merged := [(IntKey(0), a), (IntKey(1), a), (IntKey(2), b)];
    assert [(IntKey(0), a), (IntKey(1), a)] + [(IntKey(2), b)] == merged;
    assert ArrayMerge([(IntKey(0), a)], [(IntKey(0), a), (IntKey(1), b)]) == merged;
    assert merged == [(IntKey(0), a)] + ([(IntKey(1), a)] + [(IntKey(2), b)]);
    UniqueStep((IntKey(0), a), [(IntKey(1), a), (IntKey(2), b)], {});
    assert {} + {"a"} == {"a"};
    UniqueStep((IntKey(1), a), [(IntKey(2), b)], {"a"});
    UniqueStep((IntKey(2), b), [], {"a"});
  }

  lemma RemergeRenumbers()
    ensures ArrayMerge([(IntKey(0), VStr("a")), (IntKey(2), VStr("b"))], [(IntKey(0), VStr("a")), (IntKey(1), VStr("b"))])
      == [(IntKey(0), VStr("a")), (IntKey(1), VStr("b")), (IntKey(2), VStr("a")), (IntKey(3), VStr("b"))]
  {
    var a, b := VStr("a"), VStr("b");
    var none: Entries := [];
    var both := [(IntKey(0), a), (IntKey(2), b)] + [(IntKey(0), a), (IntKey(1), b)];
    assert both == [(IntKey(0), a)] + ([(IntKey(2), b)] + ([(IntKey(0), a)] + [(IntKey(1), b)]));
    RenumberIntStep(none, 0, (IntKey(0), a), [(IntKey(2), b), (IntKey(0), a), (IntKey(1), b)]);
    assert none + [(IntKey(0), a)] == [(IntKey(0), a)];
    RenumberIntStep([(IntKey(0), a)], 1, (IntKey(2), b), [(IntKey(0), a), (IntKey(1), b)]);
    assert [(IntKey(2), b)] + ([(IntKey(0), a)] + [(IntKey(1), b)]) == [(IntKey(2), b), (IntKey(0), a), (IntKey(1), b)];
    assert [(IntKey(0), a)] + [(IntKey(1), b)] == [(IntKey(0), a), (IntKey(1), b)];
    assert [(IntKey(0), a), (IntKey(1), b)] + [(IntKey(2), a)] == [(IntKey(0), a), (IntKey(1), b), (IntKey(2), a)];
    RenumberIntStep([(IntKey(0), a), (IntKey(1), b)], 2, (IntKey(0), a), [(IntKey(1), b)]);
    RenumberIntStep([(IntKey(0), a), (IntKey(1), b), (IntKey(2), a)], 3, (IntKey(1), b), []);
    assert [(IntKey(0), a), (IntKey(1), b), (IntKey(2), a)] + [(IntKey(3), b)]
      == [(IntKey(0), a), (IntKey(1), b), (IntKey(2), a), (IntKey(3), b)];
  }

  /**
   * Merging the same incoming groups into that result stores
   * [0 => "a", 1 => "b"]: a different array, hence a different hash, for
   * the same set of groups.
   */
  lemma RemergeClosesKeyGap()
    ensures ArrayUnique(ArrayMerge([(IntKey(0), VStr("a")), (IntKey(2), VStr("b"))], [(IntKey(0), VStr("a")), (IntKey(1), VStr("b"))]))
      == [(IntKey(0), VStr("a")), (IntKey(1), VStr("b"))]
  {
    var a, b := VStr("a"), VStr("b");
    RemergeRenumbers();
    var merged := [(IntKey(0), a), (IntKey(1), b), (IntKey(2), a), (IntKey(3), b)];
    assert merged == [(IntKey(0), a)] + ([(IntKey(1), b)] + ([(IntKey(2), a)] + [(IntKey(3), b)]));
    UniqueStep((IntKey(0), a), [(IntKey(1), b), (IntKey(2), a), (IntKey(3), b)], {});
    assert {} + {"a"} == {"a"};
    UniqueStep((IntKey(1), b), [(IntKey(2), a), (IntKey(3), b)], {"a"});
    UniqueStep((IntKey(2), a), [(IntKey(3), b)], {"a", "b"});
    UniqueStep((IntKey(3), b), [], {"a", "b"});
  }

  // ---------------------------------------------------------------------
  // The hash ledger

  /**
   * `getHash`, md5 of http_build_query of the group array, taken as an
   * injective function of the whole array (keys included).
   */
  datatype Hash = Hash(groups: Entries)

  type Ledger = map<string, seq<Hash>>

  predicate Recorded(ledger: Ledger, name: string, h: Hash)
  {
    name in ledger && h in ledger[name]
  }

  /**
   * `hashExists($name, $hash)` on the ledger: whether the pair was seen,
   * and the ledger with the hash appended to that model's list when it was not.
   */
  function RecordHash(ledger: Ledger, name: string, h: Hash): (r: (bool, Ledger))
    ensures r.0 <==> Recorded(ledger, name, h)
    ensures Recorded(r.1, name, h)
    ensures forall n, g :: Recorded(ledger, n, g) ==> Recorded(r.1, n, g)
    ensures forall n, g :: Recorded(r.1, n, g) ==> Recorded(ledger, n, g) || (n == name && g == h)
  {
    var list := if name in ledger then ledger[name] else [];
    if h in list then (true, ledger[name := list])
    else (false, ledger[name := list + [h]])
  }

  /** The results of a sequence of `hashExists` calls. */
  function Replay(ledger: Ledger, calls: seq<(string, Hash)>): (r: seq<bool>)
    ensures |r| == |calls|
    decreases |calls|
  {
    if calls == [] then []
    else
      var step := RecordHash(ledger, calls[0].0, calls[0].1);
      [step.0] + Replay(step.1, calls[1..])
  }

  /** Once a pair has been recorded, every later call with it answers true. */
  lemma {:induction false} ReplayRecorded(ledger: Ledger, calls: seq<(string, Hash)>, name: string, h: Hash)
    requires Recorded(ledger, name, h)
    ensures forall i :: 0 <= i < |calls| && calls[i] == (name, h) ==> Replay(ledger, calls)[i]
    decreases |calls|
  {
    if calls != [] {
      var step := RecordHash(ledger, calls[0].0, calls[0].1);
      ReplayRecorded(step.1, calls[1..], name, h);
      forall i | 0 <= i < |calls| && calls[i] == (name, h) ensures Replay(ledger, calls)[i] {
        if i > 0 {
          assert calls[1..][i - 1] == calls[i];
        }
      }
    }
  }

  /**
   * The nested extraction of a model runs at most once per distinct
   * (model, groups hash): of two equal calls, the later one answers true.
   */
  lemma {:induction false} AtMostOncePerHash(ledger: Ledger, calls: seq<(string, Hash)>)
    ensures forall i, j :: 0 <= i < j < |calls| && calls[i] == calls[j] ==> Replay(ledger, calls)[j]
    decreases |calls|
  {
    if calls != [] {
      var step := RecordHash(ledger, calls[0].0, calls[0].1);
      AtMostOncePerHash(step.1, calls[1..]);
      ReplayRecorded(step.1, calls[1..], calls[0].0, calls[0].1);
      forall i, j | 0 <= i < j < |calls| && calls[i] == calls[j] ensures Replay(ledger, calls)[j] {
        assert calls[1..][j - 1] == calls[j];
        if i > 0 {
          assert calls[1..][i - 1] == calls[i];
        }
      }
    }
  }

  // ---------------------------------------------------------------------
  // The extractor's state

  /** The registered definition aliases and the hash ledger of one TypeSchemaExtractor. */
  class TypeSchemaExtractor {
    var definitionAliases: map<string, string>
    var definitionHashes: Ledger

    constructor ()
      ensures definitionAliases == map[] && definitionHashes == map[]
    {
      definitionAliases := map[];
      definitionHashes := map[];
    }

    /** `registerDefinitionAlias`: a later alias for the same class replaces the earlier one. */
    method RegisterDefinitionAlias(definition: string, alias: string)
      modifies this
      ensures definitionAliases == old(definitionAliases)[definition := alias]
      ensures GetAliasFor(definition) == alias
      ensures forall c :: c != definition ==> GetAliasFor(c) == old(GetAliasFor(c))
      ensures definitionHashes == old(definitionHashes)
    {
      definitionAliases := definitionAliases[definition := alias];
    }

    /** `getAliasFor`: the registered alias, or the class name unchanged. */
    function GetAliasFor(className: string): (r: string)
      reads this
      ensures className in definitionAliases ==> r == definitionAliases[className]
      ensures className !in definitionAliases ==> r == className
    {
      AliasFor(definitionAliases, className)
    }

    /**
     * `hashExists`: false the first time a (model, hash) pair is asked for,
     * which records it, and true from then on.
     */
    method HashExists(modelName: string, h: Hash) returns (seen: bool)
      modifies this
      ensures (seen, definitionHashes) == RecordHash(old(definitionHashes), modelName, h)
      ensures definitionAliases == old(definitionAliases)
    {
      var known := if modelName in definitionHashes then definitionHashes[modelName] else [];
      if h !in known {
        definitionHashes := definitionHashes[modelName := known + [h]];
        return false;
      }
      definitionHashes := definitionHashes[modelName := known];
      return true;
    }
  }
}
