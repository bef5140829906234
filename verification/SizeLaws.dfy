/**
 The equations of the traversal, kind by kind: what the closed form of the total comes to when the
 set of seen addresses is handed from one part to the next, with every size written out.
 */
module SizeLaws {
  import opened FiniteSums
  import opened Graphs
  import opened SizeOf
  import opened Promise

  /** What has been seen when a value has been traversed. */
  ghost function After(h: Heap, v: Value, s: set<nat>): set<nat> {
    s + Reach(SizeOf.Links(h), Direct(v), s)
  }

  ghost predicate Costs(h: Heap, v: Value, s: set<nat>, s': set<nat>, r: int) {
    Total(h, v, s) == r && After(h, v, s) == s'
  }

  lemma NothingSeen(h: Heap, v: Value, s: set<nat>)
    requires Direct(v) <= s
    ensures Costs(h, v, s, s, Inline(v))
  {
    ReachNothing(SizeOf.Links(h), Direct(v), s);
  }

  /** Kinds without parts cost their type's size, strings their bytes too, arrays nothing for their elements. */
  lemma FlatTotal(h: Heap, n: nat, elems: seq<Value>, s: set<nat>)
    ensures Costs(h, Other(n), s, s, n)
    ensures Costs(h, Str(n), s, s, 16 + n)
    ensures Costs(h, Array(n, elems), s, s, n)
    ensures Costs(h, Ptr(0), s, s, 8)
  {
    NothingSeen(h, Other(n), s);
    NothingSeen(h, Str(n), s);
    NothingSeen(h, Array(n, elems), s);
    NothingSeen(h, Ptr(0), s);
  }

  /** A pointer costs its word, and its pointee with its address seen, unless that was seen before. */
  lemma PointerTotal(h: Heap, a: nat, s: set<nat>)
    requires Closed(h) && a in h
    ensures a in s ==> Costs(h, Ptr(a), s, s, 8)
    ensures a !in s ==> Costs(h, Ptr(a), s, After(h, h[a], s + {a}), 8 + Total(h, h[a], s + {a}))
  {
    if a in s {
      NothingSeen(h, Ptr(a), s);
    } else {
      var r := Reach(SizeOf.Links(h), Direct(h[a]), s + {a});
      ReachNode(SizeOf.Links(h), a, s);
      SumAdd(Weights(h), r, a);
      assert r + {a} == {a} + r;
    }
  }

  /** Two parts in sequence: the second is counted past what the first has seen. */
  lemma InSequence(h: Heap, d0: set<nat>, d1: set<nat>, s: set<nat>)
    requires Closed(h) && d0 + d1 <= h.Keys
    ensures var s1 := s + Reach(SizeOf.Links(h), d0, s);
            && s + Reach(SizeOf.Links(h), d0 + d1, s) == s1 + Reach(SizeOf.Links(h), d1, s1)
            && Pointees(h, Reach(SizeOf.Links(h), d0 + d1, s))
               == Pointees(h, Reach(SizeOf.Links(h), d0, s)) + Pointees(h, Reach(SizeOf.Links(h), d1, s1))
  {
    ReachThen(SizeOf.Links(h), d0, d1, s);
    PointeesThen(h, d0, d1, s);
  }

  /** An empty slice costs its header of 24 bytes, an empty struct its type's size. */
  lemma EmptyTotal(h: Heap, elemSize: nat, size: nat, s: set<nat>)
    ensures Costs(h, Slice(elemSize, [], 0), s, s, 24)
    ensures Costs(h, Struct(size, []), s, s, size)
  {
    NothingSeen(h, Slice(elemSize, [], 0), s);
    NothingSeen(h, Struct(size, []), s);
    assert InlineAll([]) == 0 && Inline(Slice(elemSize, [], 0)) == 24;
    assert InlineFields([]) == 0 && Inline(Struct(size, [])) == size;
  }

  /** One more element costs what it costs past what those before it have seen. */
  lemma SliceTotal(h: Heap, elemSize: nat, vs: seq<Value>, v: Value, s: set<nat>)
    requires Closed(h) && DirectAll(vs) + Direct(v) <= h.Keys
    ensures var s1 := After(h, Slice(elemSize, vs, 0), s);
            Costs(h, Slice(elemSize, vs + [v], 0), s, After(h, v, s1),
                  Total(h, Slice(elemSize, vs, 0), s) + Total(h, v, s1))
  {
    AllAppend(vs, v);
    InSequence(h, DirectAll(vs), Direct(v), s);
  }

  /** Each slot past the elements costs 24 bytes. */
  lemma SpareTotal(h: Heap, elemSize: nat, vs: seq<Value>, capacity: nat, s: set<nat>)
    ensures Costs(h, Slice(elemSize, vs, capacity), s, After(h, Slice(elemSize, vs, 0), s),
                  Total(h, Slice(elemSize, vs, 0), s)
                  + if capacity > |vs| then 24 * (capacity - |vs|) else 0)
  {
  }

  /**
   One more field adds to a struct, if a pointer, what its pointee costs, if a slice, all that the
   slice costs, past what the fields before it have seen. Other fields add nothing.
   */
  lemma StructTotal(h: Heap, size: nat, fs: seq<Value>, f: Value, s: set<nat>)
    requires Closed(h) && DirectFields(fs) + DirectField(f) <= h.Keys
    ensures var s1 := After(h, Struct(size, fs), s);
            var before := Total(h, Struct(size, fs), s);
            && (f.Ptr? ==> Costs(h, Struct(size, fs + [f]), s, After(h, f, s1), before + Total(h, f, s1) - 8))
            && (f.Slice? ==> Costs(h, Struct(size, fs + [f]), s, After(h, f, s1), before + Total(h, f, s1)))
            && (!f.Ptr? && !f.Slice? ==> Costs(h, Struct(size, fs + [f]), s, s1, before))
  {
    FieldsAppend(fs, f);
    InSequence(h, DirectFields(fs), DirectField(f), s);
    ReachNothing(SizeOf.Links(h), {}, After(h, Struct(size, fs), s));
  }

  lemma FieldsAppend(fs: seq<Value>, f: Value)
    ensures DirectFields(fs + [f]) == DirectFields(fs) + DirectField(f)
    ensures InlineFields(fs + [f]) == InlineFields(fs) + InlineField(f)
  {
    assert (fs + [f])[..|fs|] == fs;
  }

  // ---------- Maps ----------

  /** The keys and values of a map, each key before its value. */
  function Listed(es: seq<Entry>): seq<Value> {
    if es == [] then [] else Listed(es[..|es| - 1]) + [es[|es| - 1].key] + [es[|es| - 1].value]
  }

  lemma {:induction false} ListedCosts(es: seq<Entry>, n: nat)
    requires n <= |es|
    ensures DirectAll(Listed(es[..n])) == DirectEntries(es, Indices(n))
    ensures InlineAll(Listed(es[..n])) == InlineEntries(es, Indices(n))
  {
    if n > 0 {
      ListedCosts(es, n - 1);
      assert es[..n][..n - 1] == es[..n - 1];
      var rest := Listed(es[..n - 1]);
      AllAppend(rest, es[n - 1].key);
      AllAppend(rest + [es[n - 1].key], es[n - 1].value);
      EntriesAdd(es, Indices(n - 1), n - 1);
    }
  }

  lemma AllAppend(vs: seq<Value>, v: Value)
    ensures DirectAll(vs + [v]) == DirectAll(vs) + Direct(v) && InlineAll(vs + [v]) == InlineAll(vs) + Inline(v)
  {
    assert (vs + [v])[..|vs|] == vs;
  }

  /**
   A map costs 16 bytes per bucket, its free slots at the size of a key and a value, and its keys and
   values as if they were listed in a slice without its header; the word that holds it, nothing.
   */
  lemma MapTotal(h: Heap, keySize: nat, valueSize: nat, es: seq<Entry>, s: set<nat>)
    ensures var nb, listed := BucketCount(|es|), Slice(0, Listed(es), 0);
            Costs(h, Map(keySize, valueSize, es), s, After(h, listed, s),
                  16 * nb + FreeBytes(|es|, keySize + valueSize) + Total(h, listed, s) - 24)
  {
    MapListed(keySize, valueSize, es);
    SliceListed(Listed(es));
  }

  lemma MapListed(keySize: nat, valueSize: nat, es: seq<Entry>)
    ensures var v := Map(keySize, valueSize, es);
            && Direct(v) == DirectAll(Listed(es))
            && Inline(v) == 16 * BucketCount(|es|) + InlineAll(Listed(es)) + FreeBytes(|es|, keySize + valueSize)
  {
    assert es[..|es|] == es;
    ListedCosts(es, |es|);
    MapParts(keySize, valueSize, es);
  }

  lemma SliceListed(vs: seq<Value>)
    ensures Direct(Slice(0, vs, 0)) == DirectAll(vs) && Inline(Slice(0, vs, 0)) == 24 + InlineAll(vs)
  {
  }

  /** A bucket has eight slots; those the entries leave free cost as much as full ones. */
  lemma FreeBytesAre(len: nat, slot: nat)
    ensures FreeBytes(len, slot) == (8 * BucketCount(len) - len) * slot
  {
  }

  // ---------- Scalars ----------

  ghost predicate Scalars(vs: seq<Value>, k: nat) {
    forall i :: 0 <= i < |vs| ==> vs[i] == Other(k)
  }

  lemma ScalarWhole(k: nat)
    ensures Whole(Other(k)) == k && Leads(Other(k)) == {}
  {
    assert Beyond(Other(k)) == 0;
  }

  lemma {:induction false} ScalarsCost(vs: seq<Value>, k: nat)
    requires Scalars(vs, k)
    ensures DirectAll(vs) == LeadsAll(vs) == {} && InlineAll(vs) == WholeAll(vs) == |vs| * k
    decreases |vs|
  {
    if vs != [] {
      ScalarsCost(vs[..|vs| - 1], k);
      ScalarWhole(k);
      assert |vs| * k == (|vs| - 1) * k + k;
    }
  }

  /**
   A slice of n scalars of size k with capacity c costs its header, its elements, and 24 bytes
   for each slot past them; promised are k bytes for each slot there is.
   */
  lemma ScalarSlice(h: Heap, vs: seq<Value>, k: nat, c: nat, s: set<nat>)
    requires Scalars(vs, k)
    ensures Costs(h, Slice(k, vs, c), s, s, 24 + |vs| * k + if c > |vs| then 24 * (c - |vs|) else 0)
    ensures Promised(h, Slice(k, vs, c)) == 24 + if c > |vs| then c * k else |vs| * k
  {
    ScalarsCost(vs, k);
    NothingSeen(h, Slice(k, vs, c), s);
    ReachNothing(AllLinks(h), {}, {});
    assert Beyond(Slice(k, vs, c)) == |vs| * k + k * Spare(c, |vs|);
    assert Whole(Slice(k, vs, c)) == 24 + Beyond(Slice(k, vs, c));
    if c > |vs| {
      assert c * k == |vs| * k + k * (c - |vs|);
    }
  }

  /** What is promised of the other kinds, where nothing is led to. */
  lemma FlatPromise(h: Heap, n: nat)
    ensures Promised(h, Other(n)) == n && Promised(h, Str(n)) == 16 + n && Promised(h, Ptr(0)) == 8
  {
    ReachNothing(AllLinks(h), {}, {});
    ScalarWhole(n);
    assert Beyond(Str(n)) == n && Beyond(Ptr(0)) == 0;
    assert Whole(Str(n)) == 16 + n && Whole(Ptr(0)) == 8;
  }

  /** A pointer to a scalar is promised to cost its word and the scalar. */
  lemma PointerPromise(h: Heap, a: nat, n: nat)
    requires Closed(h) && a in h && h[a] == Other(n)
    ensures Promised(h, Ptr(a)) == 8 + n
  {
    ReachLeaf(AllLinks(h), a);
    ScalarWhole(n);
    assert Beyond(Ptr(a)) == 0 && Whole(Ptr(a)) == 8;
    SumConstant(WholeWeights(h), {a}, n);
  }

  lemma ScalarEntryPromise(keySize: nat, valueSize: nat)
    ensures var e := Entry(Other(keySize), Other(valueSize));
            LeadsEntry(e) == {} && WholeEntry(e) == keySize + valueSize
  {
    ScalarWhole(keySize);
    ScalarWhole(valueSize);
  }

  lemma ScalarEntriesPromise(es: seq<Entry>, keySize: nat, valueSize: nat)
    requires ScalarEntries(es, keySize, valueSize)
    ensures Sum(WholeEntries(es), Indices(|es|)) == |es| * (keySize + valueSize)
    ensures forall i :: 0 <= i < |es| ==> LeadsEntry(es[i]) == {}
  {
    forall i | i in Indices(|es|)
      ensures LeadsEntry(es[i]) == {} && WholeEntry(es[i]) == keySize + valueSize
    {
      assert es[i] == Entry(Other(keySize), Other(valueSize));
      ScalarEntryPromise(keySize, valueSize);
    }
    SumSame(WholeEntries(es), |es|, keySize + valueSize);
  }

  lemma FullBuckets(len: nat, slot: nat)
    ensures 16 * BucketCount(len) + len * slot + FreeBytes(len, slot) == BucketCount(len) * (16 + 8 * slot)
  {
    BucketBytes(BucketCount(len), FreeSlots(len), len, slot);
  }

  lemma ScalarMapWhole(keySize: nat, valueSize: nat, es: seq<Entry>)
    requires ScalarEntries(es, keySize, valueSize)
    ensures var v := Map(keySize, valueSize, es);
            Leads(v) == {} && Whole(v) == 8 + BucketCount(|es|) * (16 + 8 * (keySize + valueSize))
  {
    ScalarEntriesPromise(es, keySize, valueSize);
    FullBuckets(|es|, keySize + valueSize);
    MapWhole(keySize, valueSize, es);
  }

  lemma MapWhole(keySize: nat, valueSize: nat, es: seq<Entry>)
    ensures var v := Map(keySize, valueSize, es);
            && Whole(v) == 8 + 16 * BucketCount(|es|) + Sum(WholeEntries(es), Indices(|es|))
                           + FreeBytes(|es|, keySize + valueSize)
            && ((forall i :: 0 <= i < |es| ==> LeadsEntry(es[i]) == {}) ==> Leads(v) == {})
  {
    var v := Map(keySize, valueSize, es);
    assert Whole(v) == 8 + Beyond(v);
  }

  /** A map of scalars is promised to cost its word and its buckets, each with a header and eight slots. */
  lemma ScalarMapPromise(h: Heap, keySize: nat, valueSize: nat, es: seq<Entry>)
    requires ScalarEntries(es, keySize, valueSize)
    ensures Promised(h, Map(keySize, valueSize, es)) == 8 + BucketCount(|es|) * (16 + 8 * (keySize + valueSize))
  {
    ScalarMapWhole(keySize, valueSize, es);
    ReachNothing(AllLinks(h), {}, {});
  }
}
