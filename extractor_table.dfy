// The table of registered extractors of OpenApiGenerator.php: extractors are
// filed by section, then by position, in registration order, and the list
// the generator runs is read off the table by sorting each section's
// positions. The table is generic in the extractor type.

module ExtractorTable {
  import opened Wrappers
  import opened PhpValues

  /** The extractors registered at one position, in registration order. */
  type Bucket<E> = (int, seq<E>)

  /** A section's positions, in the order they were first used. */
  type Section<E> = (string, seq<Bucket<E>>)

  /** `$this->extractors`: the sections in the order they were first used. */
  type Table<E> = seq<Section<E>>

  /** The list registered at `section` and `position`, empty when there is none. */
  function BucketOf<E>(t: Table<E>, section: string, position: int): seq<E>
  {
    ArrGet(ArrGet(t, section).GetOr([]), position).GetOr([])
  }

  /** `$this->extractors[$section][$position][] = $extractor`. */
  function Register<E>(t: Table<E>, e: E, position: int, section: string): (r: Table<E>)
    ensures BucketOf(r, section, position) == BucketOf(t, section, position) + [e]
    ensures forall s, p :: (s != section || p != position) ==> BucketOf(r, s, p) == BucketOf(t, s, p)
    ensures KeysOf(r) == if section in KeysOf(t) then KeysOf(t) else KeysOf(t) + [section]
  {
    var buckets := ArrGet(t, section).GetOr([]);
    var list := ArrGet(buckets, position).GetOr([]);
    var updated := ArrPut(buckets, position, list + [e]);
    GetAfterPut(t, section, updated);
    GetAfterPut(buckets, position, list + [e]);
    forall s, p | s != section || p != position
      ensures BucketOf(ArrPut(t, section, updated), s, p) == BucketOf(t, s, p)
    {
      if s != section {
        GetOtherAfterPut(t, section, updated, s);
      } else {
        GetOtherAfterPut(buckets, position, list + [e], p);
      }
    }
    PutKeys(t, section, updated);
    ArrPut(t, section, updated)
  }

  // ---------------------------------------------------------------------
  // ksort and array_merge

  /** Every bucket's position is at most the next one's. */
  predicate Ascending<E>(bs: seq<Bucket<E>>)
  {
    forall i, j :: 0 <= i < j < |bs| ==> bs[i].0 <= bs[j].0
  }

  function Insert<E>(b: Bucket<E>, sorted: seq<Bucket<E>>): (r: seq<Bucket<E>>)
    ensures |r| == |sorted| + 1
    ensures r[0] == b || (sorted != [] && r[0] == sorted[0])
    decreases |sorted|
  {
    if sorted == [] then [b]
    else if b.0 <= sorted[0].0 then [b] + sorted
    else [sorted[0]] + Insert(b, sorted[1..])
  }

  /** Inserting keeps every bucket and adds the new one. */
  lemma {:induction false} InsertPermutes<E>(b: Bucket<E>, sorted: seq<Bucket<E>>)
    ensures multiset(Insert(b, sorted)) == multiset(sorted) + multiset{b}
    decreases |sorted|
  {
    if sorted != [] {
      assert sorted == [sorted[0]] + sorted[1..];
      if b.0 > sorted[0].0 {
        InsertPermutes(b, sorted[1..]);
      }
    }
  }

  /** Inserting into an ascending list keeps it ascending. */
  lemma {:induction false} InsertAscending<E>(b: Bucket<E>, sorted: seq<Bucket<E>>)
    requires Ascending(sorted)
    ensures Ascending(Insert(b, sorted))
    decreases |sorted|
  {
    if sorted == [] {
    } else if b.0 <= sorted[0].0 {
      var r := [b] + sorted;
      forall i, j | 0 <= i < j < |r| ensures r[i].0 <= r[j].0 {
        if i == 0 {
          assert r[j] == sorted[j - 1];
        } else {
          assert r[i] == sorted[i - 1] && r[j] == sorted[j - 1];
        }
      }
    } else {
      var tail := sorted[1..];
      assert Ascending(tail) by {
        forall i, j | 0 <= i < j < |tail| ensures tail[i].0 <= tail[j].0 {
          assert tail[i] == sorted[i + 1] && tail[j] == sorted[j + 1];
        }
      }
      InsertAscending(b, tail);
      var rest := Insert(b, tail);
      assert sorted[0].0 <= rest[0].0 by {
        if rest[0] != b {
          assert rest[0] == sorted[1];
        }
      }
      var r := [sorted[0]] + rest;
      assert Insert(b, sorted) == r;
      forall i, j | 0 <= i < j < |r| ensures r[i].0 <= r[j].0 {
        if i == 0 {
          assert r[j] == rest[j - 1];
          if j > 1 {
            assert rest[0].0 <= rest[j - 1].0;
          }
        } else {
          assert r[i] == rest[i - 1] && r[j] == rest[j - 1];
        }
      }
    }
  }

  /** `ksort`: the buckets by ascending position. */
  function KSort<E>(bs: seq<Bucket<E>>): (r: seq<Bucket<E>>)
    decreases |bs|
  {
    if bs == [] then [] else Insert(bs[0], KSort(bs[1..]))
  }

  /** ksort orders the positions and keeps every bucket, with its list. */
  lemma {:induction false} KSortSorts<E>(bs: seq<Bucket<E>>)
    ensures Ascending(KSort(bs))
    ensures multiset(KSort(bs)) == multiset(bs)
    decreases |bs|
  {
    if bs != [] {
      KSortSorts(bs[1..]);
      InsertPermutes(bs[0], KSort(bs[1..]));
      InsertAscending(bs[0], KSort(bs[1..]));
      assert bs == [bs[0]] + bs[1..];
    }
  }

  /** `array_merge(...$buckets)`: the lists one after the other. */
  function Flatten<E>(bs: seq<Bucket<E>>): seq<E>
    decreases |bs|
  {
    if bs == [] then [] else Flatten(bs[..|bs| - 1]) + bs[|bs| - 1].1
  }

  /** One section's list: its buckets by ascending position, concatenated. */
  function SectionList<E>(s: Section<E>): seq<E>
  {
    Flatten(KSort(s.1))
  }

  /**
   * `getSortedExtractors` as written: each section's list is assigned to
   * the result, so only the last section survives.
   */
  function SortedAsWritten<E>(t: Table<E>): (r: seq<E>)
    ensures t == [] ==> r == []
    ensures t != [] ==> Sorted(t) == Sorted(t[..|t| - 1]) + r
  {
    if t == [] then [] else SectionList(t[|t| - 1])
  }

  /** The sorted list as intended: every section's list, sections in order. */
  function Sorted<E>(t: Table<E>): (r: seq<E>)
    ensures forall i :: 0 <= i < |t| ==> multiset(SectionList(t[i])) <= multiset(r)
    decreases |t|
  {
    if t == [] then [] else Sorted(t[..|t| - 1]) + SectionList(t[|t| - 1])
  }

  // ---------------------------------------------------------------------
  // Properties

  /** Inside a position, extractors run in the order they were registered. */
  lemma RegistrationOrder<E>(t: Table<E>, a: E, b: E, position: int, section: string)
    ensures var r := Register(Register(t, a, position, section), b, position, section);
      BucketOf(r, section, position) == BucketOf(t, section, position) + [a, b]
  {
    var once := Register(t, a, position, section);
    assert BucketOf(Register(once, b, position, section), section, position)
      == (BucketOf(t, section, position) + [a]) + [b];
  }

  /**
   * The constructor's JSON-document extractor (position -1 of section
   * "swagger") is lost from the list as written as soon as any extractor is
   * registered in the default section, where the intended list keeps it first.
   */
  lemma AsWrittenDropsFirstSection<E>(json: E, other: E)
    ensures var t := Register(Register([], json, -1, "swagger"), other, 0, "default");
      SortedAsWritten(t) == [other] && Sorted(t) == [json, other]
  {
    var first: Section<E> := ("swagger", [(-1, [json])]);
    var second: Section<E> := ("default", [(0, [other])]);
    RegisterEmpty(json, -1, "swagger");
    RegisterSecond(first, other, 0, "default");
    TwoSections(first, second, -1, json, 0, other);
  }

  /** Two one-bucket sections: the intended list keeps both, the list as written the second. */
  lemma TwoSections<E>(first: Section<E>, second: Section<E>, p: int, x: E, q: int, y: E)
    requires first == (first.0, [(p, [x])]) && second == (second.0, [(q, [y])])
    ensures Sorted([first, second]) == [x, y] && SortedAsWritten([first, second]) == [y]
  {
    SingletonSection(first.0, p, x);
    SingletonSection(second.0, q, y);
    SortedConcatenates([], first);
    SortedConcatenates([first], second);
    assert [] + [first] == [first] && [first] + [second] == [first, second];
  }

  /** Registering into the empty table makes one section with one bucket. */
  lemma RegisterEmpty<E>(e: E, position: int, section: string)
    ensures Register([], e, position, section) == [(section, [(position, [e])])]
  {
    var none: seq<E> := [];
    assert none + [e] == [e];
  }

  /** Registering in a section the one-section table lacks appends that section. */
  lemma RegisterSecond<E>(first: Section<E>, e: E, position: int, section: string)
    requires first.0 != section
    ensures Register([first], e, position, section) == [first, (section, [(position, [e])])]
  {
    var none: seq<E> := [];
    assert none + [e] == [e];
    assert [first][1..] == [];
  }

  /** A section with one bucket lists that bucket's extractor. */
  lemma SingletonSection<E>(name: string, position: int, e: E)
    ensures SectionList((name, [(position, [e])])) == [e]
  {
    var one: seq<Bucket<E>> := [(position, [e])];
    assert one[1..] == [] && one[..0] == [];
    assert KSort(one) == Insert(one[0], []) == one;
    assert Flatten(one) == Flatten([]) + [e];
  }

  /** The intended list holds every section's list, in section order. */
  lemma {:induction false} SortedConcatenates<E>(t: Table<E>, s: Section<E>)
    ensures Sorted(t + [s]) == Sorted(t) + SectionList(s)
    ensures SortedAsWritten(t + [s]) == SectionList(s)
  {
    assert (t + [s])[..|t|] == t;
  }

  /** Within a section the buckets are read in ascending position, every bucket once. */
  lemma SectionOrder<E>(s: Section<E>)
    ensures SectionList(s) == Flatten(KSort(s.1))
    ensures Ascending(KSort(s.1)) && multiset(KSort(s.1)) == multiset(s.1)
  {
    KSortSorts(s.1);
  }

  // ---------------------------------------------------------------------
  // Membership

  /** Every extractor filed in the table satisfies `ok`. */
  ghost predicate AllIn<E>(t: Table<E>, ok: E -> bool)
  {
    forall sec: Section<E>, b: Bucket<E>, x: E :: sec in t && b in sec.1 && x in b.1 ==> ok(x)
  }

  lemma AllInWeaken<E>(t: Table<E>, ok: E -> bool, weaker: E -> bool)
    requires AllIn(t, ok) && forall x :: ok(x) ==> weaker(x)
    ensures AllIn(t, weaker)
  {
  }

  /** A value read from an array is one of its entries. */
  lemma GetIn<K, V>(a: seq<(K, V)>, k: K)
    requires ArrGet(a, k).Some?
    ensures (k, ArrGet(a, k).value) in a
  {
    var i :| 0 <= i < |a| && a[i] == (k, ArrGet(a, k).value);
  }

  /** An entry of an updated array is the new entry or one of the old ones. */
  lemma PutIn<K, V>(a: seq<(K, V)>, k: K, v: V, p: (K, V))
    requires p in ArrPut(a, k, v)
    ensures p == (k, v) || p in a
  {
    var r := ArrPut(a, k, v);
    var i :| 0 <= i < |r| && r[i] == p;
  }

  /** Every extractor in the buckets `bs` satisfies `ok`. */
  ghost predicate BucketsIn<E>(bs: seq<Bucket<E>>, ok: E -> bool)
  {
    forall b: Bucket<E>, x: E :: b in bs && x in b.1 ==> ok(x)
  }

  lemma RegisterAllIn<E>(t: Table<E>, e: E, position: int, section: string, ok: E -> bool)
    requires AllIn(t, ok) && ok(e)
    ensures AllIn(Register(t, e, position, section), ok)
  {
    var buckets := ArrGet(t, section).GetOr([]);
    var list := ArrGet(buckets, position).GetOr([]);
    var updated := ArrPut(buckets, position, list + [e]);
    if ArrGet(t, section).Some? {
      GetIn(t, section);
    }
    assert BucketsIn(buckets, ok);
    if ArrGet(buckets, position).Some? {
      GetIn(buckets, position);
    }
    assert forall x :: x in list ==> ok(x);
    forall b: Bucket<E>, x: E | b in updated && x in b.1 ensures ok(x) {
      PutIn(buckets, position, list + [e], b);
    }
    var r := ArrPut(t, section, updated);
    forall sec: Section<E>, b: Bucket<E>, x: E | sec in r && b in sec.1 && x in b.1 ensures ok(x) {
      PutIn(t, section, updated, sec);
    }
  }

  lemma {:induction false} FlattenAllIn<E>(bs: seq<Bucket<E>>, ok: E -> bool)
    requires forall b: Bucket<E>, x: E :: b in bs && x in b.1 ==> ok(x)
    ensures forall k :: 0 <= k < |Flatten(bs)| ==> ok(Flatten(bs)[k])
    decreases |bs|
  {
    if bs != [] {
      var init := bs[..|bs| - 1];
      assert forall b :: b in init ==> b in bs;
      FlattenAllIn(init, ok);
      assert bs[|bs| - 1] in bs;
      forall k | 0 <= k < |Flatten(bs)| ensures ok(Flatten(bs)[k]) {
        if k >= |Flatten(init)| {
          assert Flatten(bs)[k] == bs[|bs| - 1].1[k - |Flatten(init)|];
          assert Flatten(bs)[k] in bs[|bs| - 1].1;
        }
      }
    }
  }

  /** Sorting neither adds nor drops extractors: every one it lists is filed in the table. */
  lemma {:induction false} SortedAllIn<E>(t: Table<E>, ok: E -> bool)
    requires AllIn(t, ok)
    ensures forall k :: 0 <= k < |Sorted(t)| ==> ok(Sorted(t)[k])
    decreases |t|
  {
    if t != [] {
      var init := t[..|t| - 1];
      var last := t[|t| - 1];
      assert forall sec :: sec in init ==> sec in t;
      SortedAllIn(init, ok);
      assert last in t;
      KSortSorts(last.1);
      forall b: Bucket<E>, x: E | b in KSort(last.1) && x in b.1 ensures ok(x) {
        assert b in multiset(last.1);
      }
      FlattenAllIn(KSort(last.1), ok);
      forall k | 0 <= k < |Sorted(t)| ensures ok(Sorted(t)[k]) {
        if k >= |Sorted(init)| {
          assert Sorted(t)[k] == SectionList(last)[k - |Sorted(init)|];
        }
      }
    }
  }
}
