// JMSSerializerListener.php: the serializer event subscriber that moves
// `x-` keys into `customProperties` when a document is read and writes them
// back with an `x-` prefix when it is written. Class existence, the
// extension interface check and the object's class are inputs; the
// serializer's own visiting of the data is not part of this model.

module SerializerListener {
  import opened Wrappers
  import opened Strings
  import opened PhpValues
  import opened SpecificationExtension

  // ---------------------------------------------------------------------
  // onPreSerialize

  /**
   * `onPreSerialize`: the type the serializer is told to use. An object of a
   * BaseParameter subclass is serialized as its own class.
   */
  function PreSerializeType(objectClass: Option<string>, isParameterSubclass: bool, declared: string): (r: string)
    ensures objectClass.Some? && isParameterSubclass ==> r == objectClass.value
    ensures !(objectClass.Some? && isParameterSubclass) ==> r == declared
  {
    if objectClass.Some? && isParameterSubclass && objectClass.value != declared then objectClass.value else declared
  }

  /** Retyping is idempotent: a second event with the new type changes nothing. */
  lemma PreSerializeIdempotent(objectClass: Option<string>, isParameterSubclass: bool, declared: string)
    ensures var once := PreSerializeType(objectClass, isParameterSubclass, declared);
      PreSerializeType(objectClass, isParameterSubclass, once) == once
  {
  }

  // ---------------------------------------------------------------------
  // onPreDeserialize

  /** A string key starting with `x-`. */
  predicate IsExtensionKey(k: Key)
  {
    k.StrKey? && StartsWith(k.s, "x-")
  }

  const CustomPropertiesKey: Key := StrKey("customProperties")

  /** The entries whose key is (`ext`) or is not (`!ext`) an extension key, in order. */
  function Filter(d: Entries, ext: bool): (r: Entries)
    ensures forall i :: 0 <= i < |r| ==> r[i] in d && IsExtensionKey(r[i].0) == ext
    ensures |r| <= |d|
    decreases |d|
  {
    if d == [] then []
    else Filter(d[..|d| - 1], ext) + if IsExtensionKey(d[|d| - 1].0) == ext then [d[|d| - 1]] else []
  }

  /**
   * The foreach loop as written, over the entries seen so far: each extension
   * key is unset from the data and stored in the collected array.
   */
  function Move(seen: Entries, data: Entries): (Entries, Entries)
    decreases |seen|
  {
    if seen == [] then (data, [])
    else
      var prior := Move(seen[..|seen| - 1], data);
      var e := seen[|seen| - 1];
      if IsExtensionKey(e.0) then (ArrRemove(prior.0, e.0), ArrPut(prior.1, e.0, e.1)) else prior
  }

  /** `onPreDeserialize` on the event's data. */
  function PreDeserialize(classExists: bool, supportsExtensions: bool, data: Value): (r: Value)
    ensures !classExists || !supportsExtensions || !data.VArr? ==> r == data
    ensures r.VArr? <==> data.VArr?
  {
    if !classExists || !supportsExtensions || !data.VArr? then data
    else
      var moved := Move(data.entries, data.entries);
      if moved.1 == [] then data
      else VArr(ArrPut(moved.0, CustomPropertiesKey, VArr(moved.1)))
  }

  method OnPreDeserialize(classExists: bool, supportsExtensions: bool, data: Value) returns (out: Value)
    ensures out == PreDeserialize(classExists, supportsExtensions, data)
  {
    if !classExists {
      return data;
    }
    if !supportsExtensions {
      return data;
    }
    if !data.VArr? {
      return data;
    }
    var remaining := data.entries;
    var customProperties: Entries := [];
    var k := 0;
    while k < |data.entries|
      invariant 0 <= k <= |data.entries|
      invariant (remaining, customProperties) == Move(data.entries[..k], data.entries)
    {
      assert data.entries[..k + 1][..k] == data.entries[..k];
      var (key, value) := data.entries[k];
      if !IsExtensionKey(key) {
        k := k + 1;
        continue;
      }
      remaining := ArrRemove(remaining, key);
      customProperties := ArrPut(customProperties, key, value);
      k := k + 1;
    }
    assert data.entries[..|data.entries|] == data.entries;
    if customProperties == [] {
      return data;
    }
    return VArr(ArrPut(remaining, CustomPropertiesKey, VArr(customProperties)));
  }

  lemma ArrRemoveAbsent<K, V>(a: seq<(K, V)>, k: K)
    requires forall i :: 0 <= i < |a| ==> a[i].0 != k
    ensures ArrRemove(a, k) == a
    decreases |a|
  {
    if a != [] {
      ArrRemoveAbsent(a[1..], k);
    }
  }

  lemma {:induction false} ArrRemoveConcat<K, V>(a: seq<(K, V)>, b: seq<(K, V)>, k: K)
    ensures ArrRemove(a + b, k) == ArrRemove(a, k) + ArrRemove(b, k)
    decreases |a|
  {
    if a == [] {
      assert a + b == b;
    } else {
      assert (a + b)[1..] == a[1..] + b;
      ArrRemoveConcat(a[1..], b, k);
    }
  }

  lemma {:induction false} ArrPutAbsent<K, V>(a: seq<(K, V)>, k: K, v: V)
    requires forall i :: 0 <= i < |a| ==> a[i].0 != k
    ensures ArrPut(a, k, v) == a + [(k, v)]
    decreases |a|
  {
    if a != [] {
      ArrPutAbsent(a[1..], k, v);
      assert [a[0]] + (a[1..] + [(k, v)]) == a + [(k, v)];
    }
  }

  /** One extension key of a PHP array: unsetting it removes only its entry, storing it appends. */
  lemma MoveStepExtension(kept: Entries, collected: Entries, e: (Key, Value), rest: Entries)
    requires forall i :: 0 <= i < |kept| ==> kept[i].0 != e.0
    requires forall i :: 0 <= i < |collected| ==> collected[i].0 != e.0
    requires forall i :: 0 <= i < |rest| ==> rest[i].0 != e.0
    ensures ArrRemove(kept + ([e] + rest), e.0) == kept + rest
    ensures ArrPut(collected, e.0, e.1) == collected + [e]
  {
    ArrRemoveConcat(kept, [e] + rest, e.0);
    ArrRemoveConcat([e], rest, e.0);
    ArrRemoveAbsent(kept, e.0);
    ArrRemoveAbsent(rest, e.0);
    assert ArrRemove([e], e.0) == [];
    ArrPutAbsent(collected, e.0, e.1);
  }

  /** An entry of the filtered prefix `p` is an entry of `p`, so its key differs from keys after `p`. */
  lemma FilteredKeysBefore(data: Entries, k: nat, ext: bool)
    requires DistinctKeys(data) && 0 < k <= |data|
    ensures var f := Filter(data[..k - 1], ext); forall i :: 0 <= i < |f| ==> f[i].0 != data[k - 1].0
  {
    var p := data[..k - 1];
    var f := Filter(p, ext);
    forall i | 0 <= i < |f| ensures f[i].0 != data[k - 1].0 {
      var j :| 0 <= j < |p| && p[j] == f[i];
    }
  }

  lemma MoveExtensionStep(p: Entries, e: (Key, Value), data: Entries, rest: Entries)
    requires IsExtensionKey(e.0)
    requires forall i :: 0 <= i < |Filter(p, false)| ==> Filter(p, false)[i].0 != e.0
    requires forall i :: 0 <= i < |Filter(p, true)| ==> Filter(p, true)[i].0 != e.0
    requires forall i :: 0 <= i < |rest| ==> rest[i].0 != e.0
    requires Move(p, data) == (Filter(p, false) + ([e] + rest), Filter(p, true))
    ensures Move(p + [e], data) == (Filter(p + [e], false) + rest, Filter(p + [e], true))
  {
    var here := p + [e];
    assert here[..|here| - 1] == p && here[|here| - 1] == e;
    MoveStepExtension(Filter(p, false), Filter(p, true), e, rest);
    assert Filter(here, false) == Filter(p, false) + [];
    assert Filter(p, false) + [] == Filter(p, false);
  }

  lemma MoveOtherStep(p: Entries, e: (Key, Value), data: Entries, rest: Entries)
    requires !IsExtensionKey(e.0)
    requires Move(p, data) == (Filter(p, false) + ([e] + rest), Filter(p, true))
    ensures Move(p + [e], data) == (Filter(p + [e], false) + rest, Filter(p + [e], true))
  {
    var here := p + [e];
    assert here[..|here| - 1] == p && here[|here| - 1] == e;
    assert Filter(here, true) == Filter(p, true) + [];
    assert Filter(p, true) + [] == Filter(p, true);
    assert Filter(p, false) + ([e] + rest) == (Filter(p, false) + [e]) + rest;
  }

  lemma {:induction false} MovePrefix(data: Entries, k: nat)
    requires DistinctKeys(data) && k <= |data|
    ensures Move(data[..k], data) == (Filter(data[..k], false) + data[k..], Filter(data[..k], true))
    decreases k
  {
    if k == 0 {
      assert data[..0] == [];
      assert Move([], data) == (data, []);
      assert Filter([], false) + data == data;
      assert data[0..] == data;
    } else {
      MovePrefix(data, k - 1);
      var p := data[..k - 1];
      var e := data[k - 1];
      assert data[..k] == p + [e];
      assert data[k - 1..] == [e] + data[k..];
      if IsExtensionKey(e.0) {
        FilteredKeysBefore(data, k, false);
        FilteredKeysBefore(data, k, true);
        forall i | 0 <= i < |data[k..]| ensures data[k..][i].0 != e.0 {
          assert data[k..][i] == data[k + i];
        }
        MoveExtensionStep(p, e, data, data[k..]);
      } else {
        MoveOtherStep(p, e, data, data[k..]);
      }
    }
  }

  /** For a PHP array (distinct keys) the loop splits the data into the other keys and the extension keys, each in order. */
  lemma MoveSplits(data: Entries)
    requires DistinctKeys(data)
    ensures Move(data, data) == (Filter(data, false), Filter(data, true))
  {
    MovePrefix(data, |data|);
    assert data[..|data|] == data;
    assert data[|data|..] == [];
    assert Filter(data, false) + [] == Filter(data, false);
  }

  lemma {:induction false} ArrGetSnoc<K, V>(a: seq<(K, V)>, e: (K, V), k: K)
    ensures ArrGet(a + [e], k) == if ArrGet(a, k).Some? then ArrGet(a, k) else if e.0 == k then Some(e.1) else None
    decreases |a|
  {
    if a == [] {
      assert a + [e] == [e];
    } else {
      assert (a + [e])[1..] == a[1..] + [e];
      ArrGetSnoc(a[1..], e, k);
    }
  }

  /** The lookup in a filtered array: the data's own value for keys of the kept kind, nothing otherwise. */
  lemma {:induction false} FilterLookup(d: Entries, ext: bool, k: Key)
    ensures ArrGet(Filter(d, ext), k) == if IsExtensionKey(k) == ext then ArrGet(d, k) else None
    decreases |d|
  {
    if d != [] {
      var p := d[..|d| - 1];
      var e := d[|d| - 1];
      assert d == p + [e];
      FilterLookup(p, ext, k);
      ArrGetSnoc(p, e, k);
      if IsExtensionKey(e.0) == ext {
        ArrGetSnoc(Filter(p, ext), e, k);
      } else {
        assert Filter(d, ext) == Filter(p, ext) + [];
        assert Filter(p, ext) + [] == Filter(p, ext);
      }
    }
  }

  /**
   * The effect on a PHP array of an extensible class: without extension keys
   * the data is unchanged; otherwise every extension key leaves the data and
   * appears, with its full key and value, under `customProperties`, and every
   * other key keeps its value.
   */
  lemma PreDeserializeMovesExtensions(data: Entries, k: Key)
    requires DistinctKeys(data)
    ensures var out := PreDeserialize(true, true, VArr(data));
      (Filter(data, true) == [] ==> out == VArr(data))
      && (Filter(data, true) != [] ==> out == VArr(ArrPut(Filter(data, false), CustomPropertiesKey, VArr(Filter(data, true)))))
    ensures IsExtensionKey(k) ==> ArrGet(Filter(data, true), k) == ArrGet(data, k) && ArrGet(Filter(data, false), k) == None
    ensures !IsExtensionKey(k) ==> ArrGet(Filter(data, false), k) == ArrGet(data, k)
  {
    MoveSplits(data);
    FilterLookup(data, true, k);
    FilterLookup(data, false, k);
  }

  /** Nothing happens unless the class exists, supports extensions and the data is an array. */
  lemma PreDeserializeGuard(classExists: bool, supportsExtensions: bool, data: Value)
    requires !classExists || !supportsExtensions || !data.VArr?
    ensures PreDeserialize(classExists, supportsExtensions, data) == data
  {
  }

  // ---------------------------------------------------------------------
  // onPostSerialize

  /** The keys `onPostSerialize` writes for the custom properties in `done`, null values omitted. */
  function EmittedKeys(custom: CustomProperties, done: set<string>): set<string>
  {
    set k | k in custom && k in done && custom[k] != VNull :: "x-" + k
  }

  /** What `onPostSerialize` writes for the custom properties in `done`. */
  function Emitted(custom: CustomProperties, done: set<string>): map<string, Value>
  {
    map j | j in EmittedKeys(custom, done) :: if |j| >= 2 && j[2..] in custom then custom[j[2..]] else VNull
  }

  lemma PrefixInjective(a: string, b: string)
    requires "x-" + a == "x-" + b
    ensures a == b
  {
    assert a == ("x-" + a)[2..];
    assert b == ("x-" + b)[2..];
  }

  lemma EmittedMember(custom: CustomProperties, done: set<string>, j: string)
    ensures j in Emitted(custom, done) <==> |j| >= 2 && j[..2] == "x-" && j[2..] in custom && j[2..] in done && custom[j[2..]] != VNull
    ensures j in Emitted(custom, done) ==> Emitted(custom, done)[j] == custom[j[2..]]
  {
    if j in Emitted(custom, done) {
      var k :| k in custom && k in done && custom[k] != VNull && j == "x-" + k;
      assert j[2..] == k;
    }
    if |j| >= 2 && j[..2] == "x-" && j[2..] in custom && j[2..] in done && custom[j[2..]] != VNull {
      assert j == "x-" + j[2..];
    }
  }

  /** Writing one more custom property adds exactly its `x-` key. */
  lemma EmittedStep(custom: CustomProperties, done: set<string>, key: string)
    requires key in custom && key !in done
    ensures custom[key] != VNull ==> Emitted(custom, done + {key}) == Emitted(custom, done)["x-" + key := custom[key]]
    ensures custom[key] == VNull ==> Emitted(custom, done + {key}) == Emitted(custom, done)
  {
    var before := Emitted(custom, done);
    var after := Emitted(custom, done + {key});
    var x := "x-" + key;
    assert x[2..] == key && x[..2] == "x-";
    forall j
      ensures j in after <==> j in before || (custom[key] != VNull && j == x)
      ensures j in after ==> after[j] == custom[j[2..]]
      ensures j in before ==> before[j] == custom[j[2..]]
    {
      EmittedMember(custom, done, j);
      EmittedMember(custom, done + {key}, j);
      if |j| >= 2 && j[..2] == "x-" && j[2..] == key {
        assert j == "x-" + j[2..];
      }
    }
    if custom[key] != VNull {
      assert after.Keys == before.Keys + {x};
      assert after == before[x := custom[key]];
    } else {
      assert after.Keys == before.Keys;
    }
  }

  /** One iteration of the loop of `onPostSerialize`. */
  lemma PostSerializeStep(data: map<string, Value>, custom: CustomProperties, done: set<string>, key: string)
    requires key in custom && key !in done
    ensures custom[key] != VNull ==> (data + Emitted(custom, done))["x-" + key := custom[key]] == data + Emitted(custom, done + {key})
    ensures custom[key] == VNull ==> data + Emitted(custom, done) == data + Emitted(custom, done + {key})
  {
    EmittedStep(custom, done, key);
  }

  lemma EmittedNone(custom: CustomProperties)
    ensures Emitted(custom, {}) == map[]
  {
  }

  /** `onPostSerialize` on the visitor's data, one custom property at a time. */
  method OnPostSerialize(supportsExtensions: bool, custom: CustomProperties, data: map<string, Value>) returns (out: map<string, Value>)
    ensures out == if supportsExtensions then data + Emitted(custom, custom.Keys) else data
  {
    out := data;
    if !supportsExtensions {
      return;
    }
    var remaining := custom.Keys;
    ghost var done: set<string> := {};
    EmittedNone(custom);
    while remaining != {}
      invariant remaining + done == custom.Keys && remaining !! done
      invariant out == data + Emitted(custom, done)
      decreases remaining
    {
      var key :| key in remaining;
      var value := custom[key];
      PostSerializeStep(data, custom, done, key);
      if value != VNull {
        out := out["x-" + key := value];
      }
      remaining := remaining - {key};
      done := done + {key};
    }
  }

  /**
   * Every non-null custom property `k` is written as `x-k` with its value, a
   * null one is not written, and nothing written lacks the `x-` prefix.
   */
  lemma EmittedRule(custom: CustomProperties, k: string)
    ensures k in custom && custom[k] != VNull ==> ("x-" + k) in Emitted(custom, custom.Keys) && Emitted(custom, custom.Keys)["x-" + k] == custom[k]
    ensures k in custom && custom[k] == VNull ==> ("x-" + k) !in Emitted(custom, custom.Keys)
    ensures forall j :: j in Emitted(custom, custom.Keys) ==> StartsWith(j, "x-")
  {
    forall j | j in Emitted(custom, custom.Keys)
      ensures StartsWith(j, "x-")
    {
      EmittedMember(custom, custom.Keys, j);
    }
    var x := "x-" + k;
    assert x[2..] == k && x[..2] == "x-";
    EmittedMember(custom, custom.Keys, x);
  }

  // ---------------------------------------------------------------------
  // The two directions together

  /** The custom-property map an object ends up with when its `customProperties` array is deserialized. */
  function ToCustomMap(e: Entries): CustomProperties
    decreases |e|
  {
    if e == [] then map[]
    else
      var prior := ToCustomMap(e[..|e| - 1]);
      var last := e[|e| - 1];
      if last.0.StrKey? then prior[last.0.s := last.1] else prior
  }

  /**
   * As written, reading then writing a document turns `x-foo` into `x-x-foo`:
   * the collected key keeps its prefix and the writer adds another.
   */
  lemma RoundTripDoublesPrefix()
    ensures var data := [(StrKey("x-foo"), VStr("bar"))];
      var custom := ToCustomMap(Filter(data, true));
      var written := Emitted(custom, custom.Keys);
      Move(data, data).1 == data && ("x-x-foo" in written) && ("x-foo" !in written)
  {
    var data := [(StrKey("x-foo"), VStr("bar"))];
    assert StartsWith("x-foo", "x-");
    assert data[..0] == [];
    assert Filter(data, true) == data;
    var custom := ToCustomMap(Filter(data, true));
    assert custom == map["x-foo" := VStr("bar")];
    assert "x-" + "x-foo" == "x-x-foo";
    EmittedRule(custom, "x-foo");
    EmittedMember(custom, custom.Keys, "x-foo");
    assert "x-foo"[2..] == "foo";
  }

  /** The collection as the writer evidently expects it: each extension key stored without its `x-` prefix. */
  function CollectStripped(d: Entries): (r: Entries)
    ensures |r| <= |d|
    decreases |d|
  {
    if d == [] then []
    else
      var prior := CollectStripped(d[..|d| - 1]);
      var e := d[|d| - 1];
      if IsExtensionKey(e.0) then prior + [(StrKey(e.0.s[2..]), e.1)] else prior
  }

  /** `onPreDeserialize` with the prefix stripped from the collected keys. */
  function PreDeserializeStripped(classExists: bool, supportsExtensions: bool, data: Value): (r: Value)
    ensures !classExists || !supportsExtensions || !data.VArr? ==> r == data
    ensures r.VArr? <==> data.VArr?
  {
    if !classExists || !supportsExtensions || !data.VArr? then data
    else
      var collected := CollectStripped(data.entries);
      if collected == [] then data
      else VArr(ArrPut(Filter(data.entries, false), CustomPropertiesKey, VArr(collected)))
  }

  lemma {:induction false} CollectStrippedLookup(d: Entries, i: nat)
    requires DistinctKeys(d) && i < |d| && IsExtensionKey(d[i].0)
    ensures d[i].0.s[2..] in ToCustomMap(CollectStripped(d)) && ToCustomMap(CollectStripped(d))[d[i].0.s[2..]] == d[i].1
    decreases |d|
  {
    var p := d[..|d| - 1];
    var e := d[|d| - 1];
    assert forall a, b :: 0 <= a < b < |p| ==> p[a] == d[a] && p[b] == d[b];
    var name := d[i].0.s[2..];
    if i == |d| - 1 {
      assert CollectStripped(d) == CollectStripped(p) + [(StrKey(name), e.1)];
      assert CollectStripped(d)[..|CollectStripped(d)| - 1] == CollectStripped(p);
    } else {
      CollectStrippedLookup(p, i);
      assert p[i] == d[i];
      if IsExtensionKey(e.0) {
        assert e.0 != d[i].0;
        assert CollectStripped(d) == CollectStripped(p) + [(StrKey(e.0.s[2..]), e.1)];
        assert CollectStripped(d)[..|CollectStripped(d)| - 1] == CollectStripped(p);
      }
    }
  }

  /**
   * With the prefix stripped the two directions agree: every extension key
   * with a non-null value is written back under its own name and value.
   */
  lemma StrippedRoundTrip(d: Entries, i: nat)
    requires DistinctKeys(d) && i < |d| && IsExtensionKey(d[i].0) && d[i].1 != VNull
    ensures var custom := ToCustomMap(CollectStripped(d));
      d[i].0.s in Emitted(custom, custom.Keys) && Emitted(custom, custom.Keys)[d[i].0.s] == d[i].1
  {
    var custom := ToCustomMap(CollectStripped(d));
    CollectStrippedLookup(d, i);
    var name := d[i].0.s[2..];
    assert "x-" + name == d[i].0.s;
    EmittedRule(custom, name);
  }
}
