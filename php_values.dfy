// PHP values as the modelled code stores them in parameter bags, custom
// properties and examples. A PHP array is an ordered list of (key, value)
// entries with distinct keys; the array built-ins used by the library
// (array_merge, array_unique, array_intersect, in_array) are written out.

module PhpValues {
  import opened Wrappers
  import opened Strings

  datatype Key = IntKey(i: int) | StrKey(s: string)

  datatype Value =
    | VNull
    | VBool(b: bool)
    | VInt(i: int)
    | VFloat(text: string)                 // a float, kept opaque as its literal text
    | VStr(s: string)
    | VArr(entries: seq<(Key, Value)>)
    | VAny(data: Value)                    // an instance of Schema\Any wrapping `data`

  type Entries = seq<(Key, Value)>

  /** PHP truthiness (`if ($v)`, `?:`, `!empty($v)`). */
  predicate Truthy(v: Value)
  {
    match v
    case VNull => false
    case VBool(b) => b
    case VInt(i) => i != 0
    case VFloat(t) => t != "0" && t != "0.0"
    case VStr(s) => s != "" && s != "0"
    case VArr(e) => e != []
    case VAny(_) => true
  }

  /**
   * `(string) $v`, the comparison key of array_unique and array_intersect.
   * Arrays render as "Array"; an object without __toString renders as
   * "Object" here, where PHP raises an Error.
   */
  function ToPhpString(v: Value): string
  {
    match v
    case VNull => ""
    case VBool(b) => if b then "1" else ""
    case VInt(i) => IntToString(i)
    case VFloat(t) => t
    case VStr(s) => s
    case VArr(_) => "Array"
    case VAny(_) => "Object"
  }

  function KeysOf<K, V>(a: seq<(K, V)>): seq<K>
  {
    seq(|a|, i requires 0 <= i < |a| => a[i].0)
  }

  function ValuesOf(a: Entries): seq<Value>
  {
    seq(|a|, i requires 0 <= i < |a| => a[i].1)
  }

  /** No key occurs twice. */
  predicate DistinctKeys(a: Entries)
  {
    forall i, j :: 0 <= i < j < |a| ==> a[i].0 != a[j].0
  }

  /** Every key is an integer key: the shape of a PHP list (possibly with gaps). */
  predicate IntKeyed(a: Entries)
  {
    forall i :: 0 <= i < |a| ==> a[i].0.IntKey?
  }

  /** The set of `(string)` renderings of the values. */
  function StringSet(a: Entries): set<string>
  {
    set i | 0 <= i < |a| :: ToPhpString(a[i].1)
  }

  /** `$a[$k]` for a key that may be absent. */
  function ArrGet<K(==), V>(a: seq<(K, V)>, k: K): (r: Option<V>)
    ensures r.Some? <==> exists i :: 0 <= i < |a| && a[i].0 == k
    ensures r.Some? ==> exists i :: 0 <= i < |a| && a[i] == (k, r.value)
    decreases |a|
  {
    if a == [] then None
    else if a[0].0 == k then Some(a[0].1)
    else (assert forall i :: 1 <= i < |a| ==> a[i] == a[1..][i - 1]; ArrGet(a[1..], k))
  }

  /** `$a[$k] = $v`: replaces the value in place when the key exists, appends otherwise. */
  function ArrPut<K(==), V>(a: seq<(K, V)>, k: K, v: V): (r: seq<(K, V)>)
    ensures forall i :: 0 <= i < |r| ==> r[i] == (k, v) || r[i] in a
    decreases |a|
  {
    if a == [] then [(k, v)]
    else if a[0].0 == k then [(k, v)] + a[1..]
    else [a[0]] + ArrPut(a[1..], k, v)
  }

  /** `unset($a[$k])`. */
  function ArrRemove<K(==), V>(a: seq<(K, V)>, k: K): (r: seq<(K, V)>)
    decreases |a|
  {
    if a == [] then []
    else if a[0].0 == k then ArrRemove(a[1..], k)
    else [a[0]] + ArrRemove(a[1..], k)
  }

  /** `in_array($v, $a, true)`. */
  predicate InArrayStrict(v: Value, a: Entries)
  {
    exists i :: 0 <= i < |a| && a[i].1 == v
  }

  /**
   * `array_merge($a, $b)`: integer keys are renumbered from `next` in order,
   * a string key already present takes the later value in place.
   */
  function Renumber(acc: Entries, next: int, rest: Entries): Entries
    decreases |rest|
  {
    if rest == [] then acc
    else if rest[0].0.IntKey? then Renumber(acc + [(IntKey(next), rest[0].1)], next + 1, rest[1..])
    else Renumber(ArrPut(acc, rest[0].0, rest[0].1), next, rest[1..])
  }

  function ArrayMerge(a: Entries, b: Entries): Entries
  {
    Renumber([], 0, a + b)
  }

  /** `array_unique($a)`: keeps the first entry of each `(string)` value, with its key. */
  function UniqueFrom(a: Entries, seen: set<string>): Entries
    decreases |a|
  {
    if a == [] then []
    else if ToPhpString(a[0].1) in seen then UniqueFrom(a[1..], seen)
    else [a[0]] + UniqueFrom(a[1..], seen + {ToPhpString(a[0].1)})
  }

  function ArrayUnique(a: Entries): Entries
  {
    UniqueFrom(a, {})
  }

  /** `array_intersect($a, $b)`: the entries of `a`, keys kept, whose value occurs in `b`. */
  function ArrayIntersect(a: Entries, b: Entries): (r: Entries)
    decreases |a|
  {
    if a == [] then []
    else if ToPhpString(a[0].1) in StringSet(b) then [a[0]] + ArrayIntersect(a[1..], b)
    else ArrayIntersect(a[1..], b)
  }

  // ---------------------------------------------------------------------
  // Lemmas about the array built-ins

  /** Reading a key just written gives the written value. */
  lemma {:induction false} GetAfterPut<K, V>(a: seq<(K, V)>, k: K, v: V)
    ensures ArrGet(ArrPut(a, k, v), k) == Some(v)
    decreases |a|
  {
    if a != [] && a[0].0 != k {
      GetAfterPut(a[1..], k, v);
    }
  }

  /** Writing one key leaves every other key's value as it was. */
  lemma {:induction false} GetOtherAfterPut<K, V>(a: seq<(K, V)>, k: K, v: V, j: K)
    requires j != k
    ensures ArrGet(ArrPut(a, k, v), j) == ArrGet(a, j)
    decreases |a|
  {
    if a != [] && a[0].0 != k && a[0].0 != j {
      GetOtherAfterPut(a[1..], k, v, j);
    }
  }

  /** After unset the key is absent; other keys read as before. */
  lemma {:induction false} GetAfterRemove<K, V>(a: seq<(K, V)>, k: K, j: K)
    ensures ArrGet(ArrRemove(a, k), k).None?
    ensures j != k ==> ArrGet(ArrRemove(a, k), j) == ArrGet(a, j)
    decreases |a|
  {
    if a != [] {
      GetAfterRemove(a[1..], k, j);
    }
  }

  /** Overwriting an existing key keeps the order of keys; a new key goes last. */
  lemma {:induction false} PutKeys<K, V>(a: seq<(K, V)>, k: K, v: V)
    ensures k in KeysOf(a) ==> KeysOf(ArrPut(a, k, v)) == KeysOf(a)
    ensures k !in KeysOf(a) ==> KeysOf(ArrPut(a, k, v)) == KeysOf(a) + [k]
    decreases |a|
  {
    if a != [] {
      assert KeysOf(a) == [a[0].0] + KeysOf(a[1..]);
      if a[0].0 != k {
        PutKeys(a[1..], k, v);
        assert KeysOf(ArrPut(a, k, v)) == [a[0].0] + KeysOf(ArrPut(a[1..], k, v));
      } else {
        assert KeysOf(ArrPut(a, k, v)) == [k] + KeysOf(a[1..]);
      }
    }
  }

  lemma {:induction false} StringSetConcat(a: Entries, b: Entries)
    ensures StringSet(a + b) == StringSet(a) + StringSet(b)
  {
    forall x | x in StringSet(a + b) ensures x in StringSet(a) + StringSet(b) {
      var i :| 0 <= i < |a + b| && ToPhpString((a + b)[i].1) == x;
      if i < |a| { assert (a + b)[i] == a[i]; } else { assert (a + b)[i] == b[i - |a|]; }
    }
    forall x | x in StringSet(a) + StringSet(b) ensures x in StringSet(a + b) {
      if x in StringSet(a) {
        var i :| 0 <= i < |a| && ToPhpString(a[i].1) == x;
        assert (a + b)[i] == a[i];
      } else {
        var i :| 0 <= i < |b| && ToPhpString(b[i].1) == x;
        assert (a + b)[|a| + i] == b[i];
      }
    }
  }

  lemma StringSetCons(e: (Key, Value), a: Entries)
    ensures StringSet([e] + a) == {ToPhpString(e.1)} + StringSet(a)
  {
    StringSetConcat([e], a);
    forall x | x in StringSet([e]) ensures x == ToPhpString(e.1) {
      var i :| 0 <= i < 1 && ToPhpString([e][i].1) == x;
    }
    assert ToPhpString([e][0].1) in StringSet([e]);
  }

  /** array_unique keeps exactly the values not yet seen, each once, keys kept. */
  lemma {:induction false} UniqueFromProperties(a: Entries, seen: set<string>)
    ensures StringSet(UniqueFrom(a, seen)) == StringSet(a) - seen
    ensures forall i, j :: 0 <= i < j < |UniqueFrom(a, seen)| ==>
      ToPhpString(UniqueFrom(a, seen)[i].1) != ToPhpString(UniqueFrom(a, seen)[j].1)
    ensures IntKeyed(a) ==> IntKeyed(UniqueFrom(a, seen))
    decreases |a|
  {
    if a != [] {
      var x := ToPhpString(a[0].1);
      StringSetCons(a[0], a[1..]);
      assert a == [a[0]] + a[1..];
      if x in seen {
        UniqueFromProperties(a[1..], seen);
      } else {
        UniqueFromProperties(a[1..], seen + {x});
        var t := UniqueFrom(a[1..], seen + {x});
        StringSetCons(a[0], t);
        var r := [a[0]] + t;
        forall i, j | 0 <= i < j < |r| ensures ToPhpString(r[i].1) != ToPhpString(r[j].1) {
          if i == 0 {
            assert r[j] == t[j - 1];
            assert ToPhpString(t[j - 1].1) in StringSet(t);
          } else {
            assert r[i] == t[i - 1] && r[j] == t[j - 1];
          }
        }
        if IntKeyed(a) {
          assert IntKeyed(a[1..]);
        }
      }
    }
  }

  /** array_unique: the same values, without duplicates. */
  lemma UniqueProperties(a: Entries)
    ensures StringSet(ArrayUnique(a)) == StringSet(a)
    ensures forall i, j :: 0 <= i < j < |ArrayUnique(a)| ==>
      ToPhpString(ArrayUnique(a)[i].1) != ToPhpString(ArrayUnique(a)[j].1)
    ensures IntKeyed(a) ==> IntKeyed(ArrayUnique(a))
  {
    UniqueFromProperties(a, {});
  }

  /** For integer-keyed input, array_merge keeps all values in order under keys next, next+1, ... */
  lemma {:induction false} RenumberIntKeyed(acc: Entries, next: int, rest: Entries)
    requires IntKeyed(rest)
    ensures ValuesOf(Renumber(acc, next, rest)) == ValuesOf(acc) + ValuesOf(rest)
    ensures IntKeyed(acc) ==> IntKeyed(Renumber(acc, next, rest))
    decreases |rest|
  {
    if rest != [] {
      var acc' := acc + [(IntKey(next), rest[0].1)];
      assert ValuesOf(acc') == ValuesOf(acc) + [rest[0].1];
      assert IntKeyed(rest[1..]);
      RenumberIntKeyed(acc', next + 1, rest[1..]);
      assert ValuesOf(rest) == [rest[0].1] + ValuesOf(rest[1..]);
    }
  }

  lemma StringSetOfValues(a: Entries, b: Entries)
    requires ValuesOf(a) == ValuesOf(b)
    ensures StringSet(a) == StringSet(b)
  {
    assert |a| == |ValuesOf(a)| && |b| == |ValuesOf(b)|;
    forall i | 0 <= i < |a| ensures a[i].1 == b[i].1 {
      assert ValuesOf(a)[i] == a[i].1 && ValuesOf(b)[i] == b[i].1;
    }
  }

  /** array_merge of two lists holds the values of both, and is a list. */
  lemma MergeLists(a: Entries, b: Entries)
    requires IntKeyed(a) && IntKeyed(b)
    ensures IntKeyed(ArrayMerge(a, b))
    ensures StringSet(ArrayMerge(a, b)) == StringSet(a) + StringSet(b)
  {
    assert IntKeyed(a + b) by {
      forall i | 0 <= i < |a + b| ensures (a + b)[i].0.IntKey? {
        if i < |a| { assert (a + b)[i] == a[i]; } else { assert (a + b)[i] == b[i - |a|]; }
      }
    }
    RenumberIntKeyed([], 0, a + b);
    StringSetOfValues(ArrayMerge(a, b), a + b);
    StringSetConcat(a, b);
  }

  /** array_intersect keeps exactly the entries of `a` whose value occurs in `b`. */
  lemma {:induction false} IntersectProperties(a: Entries, b: Entries)
    ensures StringSet(ArrayIntersect(a, b)) == StringSet(a) * StringSet(b)
    ensures forall e :: e in ArrayIntersect(a, b) <==> e in a && ToPhpString(e.1) in StringSet(b)
    decreases |a|
  {
    if a != [] {
      IntersectProperties(a[1..], b);
      StringSetCons(a[0], a[1..]);
      assert a == [a[0]] + a[1..];
      if ToPhpString(a[0].1) in StringSet(b) {
        StringSetCons(a[0], ArrayIntersect(a[1..], b));
      }
    }
  }
}
