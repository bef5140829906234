/** The traversal that adds up sizes while it marks, in one shared set, the addresses it has seen. */
module DeepSize {
  import opened FiniteSums
  import opened Graphs
  import opened SizeOf

  /**
   The total as an int64. Sums and products of uintptr commute with reduction to its range,
   so the traversal adds exact numbers and the reduction is made once, here.
   */
  function ToInt64(total: nat): (r: int)
    ensures -0x8000_0000_0000_0000 <= r < 0x8000_0000_0000_0000
    ensures (total - r) % 0x1_0000_0000_0000_0000 == 0
  {
    var x := total % UINTPTR;
    if x < UINTPTR / 2 then x else x - UINTPTR
  }

  /**
   r counts own bytes and those of all that roots reach past s0, which s1 adds to s0.
   */
  ghost predicate Counted(h: Heap, roots: set<nat>, own: nat, s0: set<nat>, s1: set<nat>, r: nat) {
    s1 == s0 + Reach(Links(h), roots, s0) && r == own + Pointees(h, Reach(Links(h), roots, s0))
  }

  /** Counting one more part goes on from what has been seen before. */
  lemma CountedThen(h: Heap, d0: set<nat>, d1: set<nat>, own0: nat, own1: nat,
                    s0: set<nat>, s1: set<nat>, s2: set<nat>, r0: nat, r1: nat)
    requires Closed(h) && d0 + d1 <= h.Keys
    requires Counted(h, d0, own0, s0, s1, r0) && Counted(h, d1, own1, s1, s2, r1)
    ensures Counted(h, d0 + d1, own0 + own1, s0, s2, r0 + r1)
  {
    ReachThen(Links(h), d0, d1, s0);
    PointeesThen(h, d0, d1, s0);
  }

  lemma CountedPointee(h: Heap, a: nat, s0: set<nat>, s1: set<nat>, r: nat)
    requires Closed(h) && a in h && a !in s0
    requires Counted(h, Direct(h[a]), Inline(h[a]), s0 + {a}, s1, r)
    ensures Counted(h, {a}, 0, s0, s1, r)
  {
    var r1 := Reach(Links(h), Direct(h[a]), s0 + {a});
    ReachNode(Links(h), a, s0);
    SumAdd(Weights(h), r1, a);
    assert r1 + {a} == {a} + r1;
  }

  lemma CountedNothing(h: Heap, roots: set<nat>, own: nat, s: set<nat>)
    requires roots <= s
    ensures Counted(h, roots, own, s, s, own)
  {
    ReachNothing(Links(h), roots, s);
  }

  class Sizer {
    const heap: Heap
    var seen: set<nat>

    constructor (heap: Heap)
      ensures this.heap == heap && seen == {}
    {
      this.heap := heap;
      seen := {};
    }

    /**
     The result is the value's inline size plus the inline size of every address newly
     reached, each counted once, whatever order the entries of maps are listed in.
     */
    method ValueSize(v: Value) returns (r: nat)
      requires Closed(heap) && Direct(v) <= heap.Keys
      modifies this
      ensures Counted(heap, Direct(v), Inline(v), old(seen), seen, r)
      decreases heap.Keys - seen, 1, v, 1
    {
      match v {
        case Ptr(a) =>
          var pointee := Chase(a);
          r := pointee + WORD;
        case Slice(_, _, _) =>
          r := SliceSize(v);
        case Map(_, _, _) =>
          r := MapSize(v);
        case Struct(_, _) =>
          r := StructSize(v);
        case Array(size, _) =>
          r := size;
          CountedNothing(heap, {}, size, seen);
        case Str(len) =>
          r := STRING_HEADER + len;
          CountedNothing(heap, {}, STRING_HEADER + len, seen);
        case Other(size) =>
          r := size;
          CountedNothing(heap, {}, size, seen);
      }
    }

    /** The size of what a pointer leads to: nothing if it is nil or its address has been seen. */
    method Chase(a: nat) returns (r: nat)
      requires Closed(heap) && (a == 0 || a in heap)
      modifies this
      ensures Counted(heap, Direct(Ptr(a)), 0, old(seen), seen, r)
      decreases heap.Keys - seen, 0
    {
      if a !in seen && a != 0 {
        seen := seen + {a};
        r := ValueSize(heap[a]);
        CountedPointee(heap, a, old(seen), seen, r);
      } else {
        r := 0;
        CountedNothing(heap, Direct(Ptr(a)), 0, seen);
      }
    }

    method SliceSize(v: Value) returns (base: nat)
      requires Closed(heap) && v.Slice? && Direct(v) <= heap.Keys
      modifies this
      ensures Counted(heap, Direct(v), Inline(v), old(seen), seen, base)
      decreases heap.Keys - seen, 1, v, 0
    {
      base := SLICE_HEADER;
      CountedNothing(heap, {}, SLICE_HEADER, seen);
      var n := |v.elems|;
      for i := 0 to n
        invariant Counted(heap, DirectAll(v.elems[..i]), SLICE_HEADER + InlineAll(v.elems[..i]),
                          old(seen), seen, base)
      {
        ghost var prefix, before := v.elems[..i], seen;
        AllStep(v.elems, i);
        var part := ValueSize(v.elems[i]);
        CountedThen(heap, DirectAll(prefix), Direct(v.elems[i]), SLICE_HEADER + InlineAll(prefix),
                    Inline(v.elems[i]), old(seen), before, seen, base, part);
        base := base + part;
      }
      assert v.elems[..n] == v.elems;
      if v.capacity > n {
        var spare := SpareBytes(v.capacity, n);
        base := base + spare;
      }
    }

    method MapSize(v: Value) returns (base: nat)
      requires Closed(heap) && v.Map? && Direct(v) <= heap.Keys
      modifies this
      ensures Counted(heap, Direct(v), Inline(v), old(seen), seen, base)
      decreases heap.Keys - seen, 1, v, 0
    {
      base := 16 * BucketCount(|v.entries|);
      var entries := EntriesSize(v.entries);
      MapParts(v.keySize, v.valueSize, v.entries);
      var free := FreeBytes(|v.entries|, v.keySize + v.valueSize);
      base := base + entries + free;
    }

    method EntriesSize(es: seq<Entry>) returns (base: nat)
      requires Closed(heap) && DirectEntries(es, Indices(|es|)) <= heap.Keys
      modifies this
      ensures Counted(heap, DirectEntries(es, Indices(|es|)), InlineEntries(es, Indices(|es|)), old(seen), seen, base)
      decreases heap.Keys - seen, 1, es, 1
    {
      base := 0;
      CountedNothing(heap, {}, 0, seen);
      // MapKeys lists the keys in no particular order.
      var todo := Indices(|es|);
      ghost var done: set<nat> := {};
      assert DirectEntries(es, done) == {} && InlineEntries(es, done) == 0;
      while todo != {}
        invariant todo !! done && todo + done == Indices(|es|)
        invariant Counted(heap, DirectEntries(es, done), InlineEntries(es, done), old(seen), seen, base)
        decreases todo
      {
        ghost var before := seen;
        var i :| i in todo;
        EntriesAdd(es, done, i);
        var part := EntrySize(es[i]);
        CountedThen(heap, DirectEntries(es, done), DirectEntry(es[i]), InlineEntries(es, done),
                    InlineEntry(es[i]), old(seen), before, seen, base, part);
        base := base + part;
        todo, done := todo - {i}, done + {i};
      }
      assert done == Indices(|es|);
    }

    /** The key of an entry of a map, then its value. */
    method EntrySize(e: Entry) returns (r: nat)
      requires Closed(heap) && DirectEntry(e) <= heap.Keys
      modifies this
      ensures Counted(heap, DirectEntry(e), InlineEntry(e), old(seen), seen, r)
      decreases heap.Keys - seen, 1, e, 0
    {
      var k := ValueSize(e.key);
      ghost var middle := seen;
      var w := ValueSize(e.value);
      CountedThen(heap, Direct(e.key), Direct(e.value), Inline(e.key), Inline(e.value),
                  old(seen), middle, seen, k, w);
      r := k + w;
    }

    method StructSize(v: Value) returns (base: nat)
      requires Closed(heap) && v.Struct? && Direct(v) <= heap.Keys
      modifies this
      ensures Counted(heap, Direct(v), Inline(v), old(seen), seen, base)
      decreases heap.Keys - seen, 1, v, 0
    {
      base := v.size;
      CountedNothing(heap, {}, v.size, seen);
      var n := |v.fields|;
      for i := 0 to n
        invariant Counted(heap, DirectFields(v.fields[..i]), v.size + InlineFields(v.fields[..i]),
                          old(seen), seen, base)
      {
        ghost var prefix, before := v.fields[..i], seen;
        FieldsStep(v.fields, i);
        var part := FieldSize(v.fields[i]);
        CountedThen(heap, DirectFields(prefix), DirectField(v.fields[i]), v.size + InlineFields(prefix),
                    InlineField(v.fields[i]), old(seen), before, seen, base, part);
        base := base + part;
      }
      assert v.fields[..n] == v.fields;
    }

    /** What a field adds to its struct: the pointee of a pointer, the whole of a slice, else nothing. */
    method FieldSize(f: Value) returns (r: nat)
      requires Closed(heap) && DirectField(f) <= heap.Keys
      modifies this
      ensures Counted(heap, DirectField(f), InlineField(f), old(seen), seen, r)
      decreases heap.Keys - seen, 1, f, 2
    {
      if f.Ptr? {
        r := Chase(f.addr);
      } else if f.Slice? {
        r := ValueSize(f);
      } else {
        r := 0;
        CountedNothing(heap, {}, 0, seen);
      }
    }
  }

  lemma AllStep(vs: seq<Value>, i: nat)
    requires i < |vs|
    ensures DirectAll(vs[..i + 1]) == DirectAll(vs[..i]) + Direct(vs[i]) <= DirectAll(vs)
    ensures InlineAll(vs[..i + 1]) == InlineAll(vs[..i]) + Inline(vs[i])
  {
    assert vs[..i + 1][..i] == vs[..i];
    DirectAllPrefix(vs, i + 1);
  }

  lemma FieldsStep(fs: seq<Value>, i: nat)
    requires i < |fs|
    ensures DirectFields(fs[..i + 1]) == DirectFields(fs[..i]) + DirectField(fs[i]) <= DirectFields(fs)
    ensures InlineFields(fs[..i + 1]) == InlineFields(fs[..i]) + InlineField(fs[i])
  {
    assert fs[..i + 1][..i] == fs[..i];
    DirectFieldsPrefix(fs, i + 1);
  }

  lemma {:induction false} DirectAllPrefix(vs: seq<Value>, i: nat)
    requires i <= |vs|
    ensures DirectAll(vs[..i]) <= DirectAll(vs)
    decreases |vs|
  {
    if i == |vs| {
      assert vs[..i] == vs;
    } else {
      DirectAllPrefix(vs[..|vs| - 1], i);
      assert vs[..|vs| - 1][..i] == vs[..i];
    }
  }

  lemma {:induction false} DirectFieldsPrefix(fs: seq<Value>, i: nat)
    requires i <= |fs|
    ensures DirectFields(fs[..i]) <= DirectFields(fs)
    decreases |fs|
  {
    if i == |fs| {
      assert fs[..i] == fs;
    } else {
      DirectFieldsPrefix(fs[..|fs| - 1], i);
      assert fs[..|fs| - 1][..i] == fs[..i];
    }
  }

  /**
   The size of a whole object graph: the value itself, and once for each distinct address it
   reaches, the value there.
   */
  method DeepSize(heap: Heap, v: Value) returns (r: int)
    requires Closed(heap) && Direct(v) <= heap.Keys
    ensures r == ToInt64(Total(heap, v, {}))
  {
    var sizer := new Sizer(heap);
    var size := sizer.ValueSize(v);
    r := ToInt64(size);
  }
}
