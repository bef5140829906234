/** The values of an object graph, as far as their sizes are counted, and what they cost. */
module SizeOf {
  import opened FiniteSums
  import opened Graphs

  const WORD := 8
  const SLICE_HEADER := 24
  const STRING_HEADER := 16
  const UINTPTR := 0x1_0000_0000_0000_0000

  /**
   A pointer holds an address, 0 when nil. Slices, maps, structs and arrays hold their parts
   by value; elemSize, keySize and valueSize are sizes of types. Other stands for every kind
   that has no parts, interfaces and functions among them.
   */
  datatype Value =
    | Ptr(addr: nat)
    | Slice(elemSize: nat, elems: seq<Value>, capacity: nat)
    | Map(keySize: nat, valueSize: nat, entries: seq<Entry>)
    | Struct(size: nat, fields: seq<Value>)
    | Array(size: nat, elems: seq<Value>)
    | Str(len: nat)
    | Other(typeSize: nat)

  datatype Entry = Entry(key: Value, value: Value)

  type Heap = map<nat, Value>

  // ---------- Buckets of a map ----------

  function Pow2(k: int): (r: real)
    ensures r > 0.0
    decreases if k < 0 then -k else k
  {
    if k == 0 then 1.0 else if k > 0 then 2.0 * Pow2(k - 1) else Pow2(k + 1) / 2.0
  }

  lemma Pow2Step(k: int)
    ensures Pow2(k + 1) == 2.0 * Pow2(k)
  {
  }

  lemma {:induction false} Pow2Monotone(j: int, k: int)
    requires j <= k
    ensures Pow2(j) <= Pow2(k)
    decreases k - j
  {
    if j < k {
      Pow2Step(k - 1);
      Pow2Monotone(j, k - 1);
    }
  }

  /** The ceiling of the base-two logarithm of num / den. */
  function CeilLog2(num: nat, den: nat): (k: int)
    requires num > 0 && den > 0
    decreases if num > den then 1 else 0, if num > den then num - den else den - num
  {
    if num > den then CeilLog2(num, 2 * den) + 1
    else if 2 * num <= den then CeilLog2(2 * num, den) - 1
    else 0
  }

  /** uintptr(2^ceil(log2(len / 6.5))), and one if that is zero; 2^(log 0) is zero. */
  function BucketCount(len: nat): nat {
    var nb := if len == 0 then 0 else Pow2(CeilLog2(2 * len, 13)).Floor;
    if nb <= 0 then 1 else nb
  }

  function Power(k: nat): (r: nat)
    ensures r > 0
  {
    if k == 0 then 1 else 2 * Power(k - 1)
  }

  lemma {:induction false} Pow2IsPower(k: nat)
    ensures Pow2(k) == Power(k) as real
  {
    if k > 0 {
      Pow2IsPower(k - 1);
    }
  }

  /** 2^(k-1) < num / den <= 2^k, without the division. */
  ghost predicate Brackets(k: int, num: nat, den: nat) {
    Pow2(k - 1) * den as real < num as real <= Pow2(k) * den as real
  }

  lemma BracketsDoubleDen(k: int, num: nat, den: nat)
    requires Brackets(k, num, 2 * den)
    ensures Brackets(k + 1, num, den)
  {
    var d := den as real;
    assert (2 * den) as real == 2.0 * d;
    assert Pow2(k) * (2.0 * d) == 2.0 * Pow2(k) * d == Pow2(k + 1) * d by { Pow2Step(k); }
    assert Pow2(k - 1) * (2.0 * d) == 2.0 * Pow2(k - 1) * d == Pow2(k) * d by { Pow2Step(k - 1); }
  }

  lemma BracketsDoubleNum(k: int, num: nat, den: nat)
    requires Brackets(k, 2 * num, den)
    ensures Brackets(k - 1, num, den)
  {
    var d := den as real;
    assert (2 * num) as real == 2.0 * num as real;
    assert Pow2(k) * d == 2.0 * (Pow2(k - 1) * d) by { Pow2Step(k - 1); }
    assert Pow2(k - 1) * d == 2.0 * (Pow2(k - 2) * d) by { Pow2Step(k - 2); }
  }

  lemma {:induction false} CeilLog2Brackets(num: nat, den: nat)
    requires num > 0 && den > 0
    ensures Brackets(CeilLog2(num, den), num, den)
    decreases if num > den then 1 else 0, if num > den then num - den else den - num
  {
    if num > den {
      CeilLog2Brackets(num, 2 * den);
      BracketsDoubleDen(CeilLog2(num, 2 * den), num, den);
    } else if 2 * num <= den {
      CeilLog2Brackets(2 * num, den);
      BracketsDoubleNum(CeilLog2(2 * num, den), num, den);
    } else {
      assert Pow2(0) == 1.0 && Pow2(-1) == 0.5;
    }
  }

  ghost predicate IsPower(n: nat) {
    exists k: nat :: n == Power(k)
  }

  /**
   The bucket count is the least power of two that is at least len / 6.5. Its slots always
   hold the entries, so the count of free slots does not wrap, and beyond one bucket more
   than half of the 6.5 entries a bucket stands for are there.
   */
  lemma BucketCountIsLeast(len: nat)
    ensures IsPower(BucketCount(len)) && 13 * BucketCount(len) >= 2 * len
    ensures forall n: nat :: IsPower(n) && 13 * n >= 2 * len ==> BucketCount(len) <= n
    ensures 8 * BucketCount(len) >= len
    ensures BucketCount(len) > 1 ==> 13 * BucketCount(len) < 4 * len
  {
    assert Power(0) == 1;
    if len > 0 {
      var k := CeilLog2(2 * len, 13);
      CeilLog2Brackets(2 * len, 13);
      if k <= 0 {
        Pow2Monotone(k, 0);
      } else {
        Pow2IsPower(k);
        Pow2IsPower(k - 1);
        assert BucketCount(len) == Power(k);
        forall n: nat | IsPower(n) && 13 * n >= 2 * len
          ensures Power(k) <= n
        {
          var j: nat :| n == Power(j);
          Pow2IsPower(j);
          if j <= k - 1 {
            Pow2Monotone(j, k - 1);
          } else {
            Pow2Monotone(k, j);
          }
        }
      }
    }
  }

  // ---------- A value without what it points to ----------

  function Spare(capacity: nat, len: nat): nat {
    if capacity > len then capacity - len else 0
  }

  /** Spare capacity of a slice is charged at the size of a slice header each. */
  function SpareBytes(capacity: nat, len: nat): nat {
    SLICE_HEADER * Spare(capacity, len)
  }

  /** The slots of a map's buckets that its entries leave free. */
  function FreeSlots(len: nat): nat {
    BucketCountIsLeast(len);
    8 * BucketCount(len) - len
  }

  function FreeBytes(len: nat, slotSize: nat): nat {
    FreeSlots(len) * slotSize
  }

  /** The addresses a value leads to directly: a struct leads on by pointer and slice fields
   only, and an array not at all. */
  ghost function Direct(v: Value): set<nat>
    decreases v, 0
  {
    match v
    case Ptr(a) => if a == 0 then {} else {a}
    case Slice(_, elems, _) => DirectAll(elems)
    case Map(_, _, entries) => DirectEntries(entries, Indices(|entries|))
    case Struct(_, fields) => DirectFields(fields)
    case Array(_, _) => {}
    case Str(_) => {}
    case Other(_) => {}
  }

  ghost function DirectAll(vs: seq<Value>): set<nat>
    decreases vs
  {
    if vs == [] then {} else DirectAll(vs[..|vs| - 1]) + Direct(vs[|vs| - 1])
  }

  ghost function DirectEntry(e: Entry): set<nat>
    decreases e
  {
    Direct(e.key) + Direct(e.value)
  }

  /** The addresses of those entries whose positions are in done. */
  ghost function DirectEntries(es: seq<Entry>, done: set<nat>): set<nat>
    requires done <= Indices(|es|)
    decreases es, 1
  {
    set i, a | i in done && a in DirectEntry(es[i]) :: a
  }

  ghost function DirectFields(fs: seq<Value>): set<nat>
    decreases fs
  {
    if fs == [] then {} else DirectFields(fs[..|fs| - 1]) + DirectField(fs[|fs| - 1])
  }

  ghost function DirectField(f: Value): set<nat>
    decreases f, 1
  {
    if f.Ptr? || f.Slice? then Direct(f) else {}
  }

  /**
   The bytes of a value itself, its slice elements and its map entries included, the values
   behind pointers not.
   */
  ghost function Inline(v: Value): nat
    decreases v, 0
  {
    match v
    case Ptr(_) => WORD
    case Slice(_, elems, capacity) =>
      SLICE_HEADER + InlineAll(elems) + SpareBytes(capacity, |elems|)
    case Map(keySize, valueSize, entries) =>
      16 * BucketCount(|entries|) + InlineEntries(entries, Indices(|entries|))
      + FreeBytes(|entries|, keySize + valueSize)
    case Struct(size, fields) => size + InlineFields(fields)
    case Array(size, _) => size
    case Str(len) => STRING_HEADER + len
    case Other(size) => size
  }

  ghost function InlineAll(vs: seq<Value>): nat
    decreases vs
  {
    if vs == [] then 0 else InlineAll(vs[..|vs| - 1]) + Inline(vs[|vs| - 1])
  }

  ghost function InlineFields(fs: seq<Value>): nat
    decreases fs
  {
    if fs == [] then 0 else InlineFields(fs[..|fs| - 1]) + InlineField(fs[|fs| - 1])
  }

  ghost function InlineField(f: Value): nat
    decreases f, 1
  {
    if f.Slice? then Inline(f) else 0
  }

  function Indices(n: nat): (r: set<nat>)
    ensures forall i: nat :: i in r <==> i < n
  {
    if n == 0 then {} else Indices(n - 1) + {n - 1}
  }

  ghost function InlineEntry(e: Entry): nat
    decreases e
  {
    Inline(e.key) + Inline(e.value)
  }

  ghost function EntryWeights(es: seq<Entry>): map<nat, nat>
    decreases es, 0
  {
    map i | i in Indices(|es|) :: InlineEntry(es[i])
  }

  /** The inline bytes of those entries whose positions are in done. */
  ghost function InlineEntries(es: seq<Entry>, done: set<nat>): nat
    requires done <= Indices(|es|)
    decreases es, 1
  {
    Sum(EntryWeights(es), done)
  }

  // ---------- What a value reaches ----------

  ghost predicate Closed(h: Heap) {
    forall a :: a in h ==> a != 0 && Direct(h[a]) <= h.Keys
  }

  /** The graph the pointers make. */
  ghost function Links(h: Heap): Graph {
    map a | a in h :: Direct(h[a])
  }

  ghost function Weights(h: Heap): map<nat, nat> {
    map a | a in h :: Inline(h[a])
  }

  /** Every pointee reached counts once, at its inline size. */
  ghost function Pointees(h: Heap, s: set<nat>): nat
    requires s <= h.Keys
  {
    Sum(Weights(h), s)
  }

  ghost function Total(h: Heap, v: Value, seen: set<nat>): nat {
    Inline(v) + Pointees(h, Reach(Links(h), Direct(v), seen))
  }

  /** Counting on from what has been seen counts nothing twice. */
  lemma PointeesThen(h: Heap, d0: set<nat>, d1: set<nat>, s: set<nat>)
    requires Closed(h) && d0 + d1 <= h.Keys
    ensures var r0 := Reach(Links(h), d0, s);
            var r1 := Reach(Links(h), d1, s + r0);
            Pointees(h, Reach(Links(h), d0 + d1, s)) == Pointees(h, r0) + Pointees(h, r1)
  {
    var r0 := Reach(Links(h), d0, s);
    var r1 := Reach(Links(h), d1, s + r0);
    ReachThen(Links(h), d0, d1, s);
    SumUnion(Weights(h), r0, r1);
  }

  // ---------- What the totals mean ----------

  /** The more has been seen before, the less a value still costs. */
  lemma TotalShrinks(h: Heap, v: Value, s: set<nat>, t: set<nat>)
    requires s <= t
    ensures Total(h, v, t) <= Total(h, v, s)
  {
    ReachShrinks(Links(h), Direct(v), s, t);
    SumSubset(Weights(h), Reach(Links(h), Direct(v), t), Reach(Links(h), Direct(v), s));
  }

  /**
   Two values side by side cost what each costs alone, less once whatever both reach: shared
   structure is counted exactly once.
   */
  lemma SharedCountedOnce(h: Heap, v: Value, w: Value)
    ensures Inline(v) + Inline(w) + Pointees(h, Reach(Links(h), Direct(v) + Direct(w), {}))
            + Pointees(h, Reach(Links(h), Direct(v), {}) * Reach(Links(h), Direct(w), {}))
         == Total(h, v, {}) + Total(h, w, {})
  {
    var r0, r1 := Reach(Links(h), Direct(v), {}), Reach(Links(h), Direct(w), {});
    ReachUnion(Links(h), Direct(v), Direct(w), {});
    SumUnion(Weights(h), r0, r1 - r0);
    SumUnion(Weights(h), r0 * r1, r1 - r0);
    assert r0 + (r1 - r0) == r0 + r1;
    assert r0 * r1 + (r1 - r0) == r1;
  }

  ghost function TotalsAlone(h: Heap, vs: seq<Value>): nat {
    if vs == [] then 0 else TotalsAlone(h, vs[..|vs| - 1]) + Total(h, vs[|vs| - 1], {})
  }

  /** A slice never costs more than its header, its spare capacity and its elements taken alone. */
  lemma SliceAtMostElements(h: Heap, elemSize: nat, elems: seq<Value>, capacity: nat)
    ensures Total(h, Slice(elemSize, elems, capacity), {})
         <= SLICE_HEADER + SpareBytes(capacity, |elems|) + TotalsAlone(h, elems)
  {
    AllAtMostAlone(h, elems);
  }

  lemma PointeesAtMost(h: Heap, d0: set<nat>, d1: set<nat>)
    ensures Pointees(h, Reach(Links(h), d0 + d1, {}))
         <= Pointees(h, Reach(Links(h), d0, {})) + Pointees(h, Reach(Links(h), d1, {}))
  {
    var r0, r1 := Reach(Links(h), d0, {}), Reach(Links(h), d1, {});
    ReachUnion(Links(h), d0, d1, {});
    SumUnion(Weights(h), r0, r1 - r0);
    SumSubset(Weights(h), r1 - r0, r1);
    assert r0 + (r1 - r0) == r0 + r1;
  }

  lemma {:induction false} AllAtMostAlone(h: Heap, vs: seq<Value>)
    ensures InlineAll(vs) + Pointees(h, Reach(Links(h), DirectAll(vs), {})) <= TotalsAlone(h, vs)
    decreases |vs|
  {
    if vs == [] {
      ReachNothing(Links(h), {}, {});
    } else {
      var rest, last := vs[..|vs| - 1], vs[|vs| - 1];
      AllAtMostAlone(h, rest);
      PointeesAtMost(h, DirectAll(rest), Direct(last));
    }
  }

  ghost function EntryTotals(h: Heap, es: seq<Entry>): map<nat, nat> {
    map i | i in Indices(|es|) :: Total(h, es[i].key, {}) + Total(h, es[i].value, {})
  }

  /** A map never costs more than its buckets' headers, its free slots, and its keys and values taken alone. */
  lemma MapAtMostEntries(h: Heap, keySize: nat, valueSize: nat, es: seq<Entry>)
    ensures Total(h, Map(keySize, valueSize, es), {})
         <= 16 * BucketCount(|es|) + FreeBytes(|es|, keySize + valueSize)
            + Sum(EntryTotals(h, es), Indices(|es|))
  {
    EntriesAtMostAlone(h, es, Indices(|es|));
    MapParts(keySize, valueSize, es);
  }

  lemma MapParts(keySize: nat, valueSize: nat, es: seq<Entry>)
    ensures var v, all := Map(keySize, valueSize, es), Indices(|es|);
            && Direct(v) == DirectEntries(es, all)
            && Inline(v) == 16 * BucketCount(|es|) + InlineEntries(es, all) + FreeBytes(|es|, keySize + valueSize)
  {
  }

  lemma {:induction false} EntriesAtMostAlone(h: Heap, es: seq<Entry>, done: set<nat>)
    requires done <= Indices(|es|)
    ensures InlineEntries(es, done) + Pointees(h, Reach(Links(h), DirectEntries(es, done), {}))
         <= Sum(EntryTotals(h, es), done)
    decreases done
  {
    if done == {} {
      assert DirectEntries(es, done) == {};
      ReachNothing(Links(h), {}, {});
    } else {
      var i :| i in done;
      var rest := done - {i};
      assert rest + {i} == done;
      EntriesAtMostAlone(h, es, rest);
      EntriesAdd(es, rest, i);
      SumAdd(EntryTotals(h, es), rest, i);
      PointeesAtMost(h, DirectEntries(es, rest), DirectEntry(es[i]));
      PointeesAtMost(h, Direct(es[i].key), Direct(es[i].value));
    }
  }

  lemma EntriesAdd(es: seq<Entry>, done: set<nat>, i: nat)
    requires done + {i} <= Indices(|es|) && i !in done
    ensures DirectEntries(es, done + {i}) == DirectEntries(es, done) + DirectEntry(es[i])
    ensures InlineEntries(es, done + {i}) == InlineEntries(es, done) + InlineEntry(es[i])
    ensures DirectEntries(es, done + {i}) <= DirectEntries(es, Indices(|es|))
  {
    SumAdd(EntryWeights(es), done, i);
  }

  /** What a field costs alone, its own word or words in the struct aside if it is a pointer. */
  ghost function FieldAlone(h: Heap, f: Value): nat {
    if f.Ptr? then Total(h, f, {}) - WORD else if f.Slice? then Total(h, f, {}) else 0
  }

  ghost function FieldsAlone(h: Heap, fs: seq<Value>): nat {
    if fs == [] then 0 else FieldsAlone(h, fs[..|fs| - 1]) + FieldAlone(h, fs[|fs| - 1])
  }

  /** A struct never costs more than its own size and what its pointers and slices cost alone. */
  lemma StructAtMostFields(h: Heap, size: nat, fields: seq<Value>)
    ensures Total(h, Struct(size, fields), {}) <= size + FieldsAlone(h, fields)
  {
    FieldsAtMostAlone(h, fields);
  }

  lemma {:induction false} FieldsAtMostAlone(h: Heap, fs: seq<Value>)
    ensures InlineFields(fs) + Pointees(h, Reach(Links(h), DirectFields(fs), {})) <= FieldsAlone(h, fs)
    decreases |fs|
  {
    ReachNothing(Links(h), {}, {});
    if fs != [] {
      var rest, last := fs[..|fs| - 1], fs[|fs| - 1];
      FieldsAtMostAlone(h, rest);
      PointeesAtMost(h, DirectFields(rest), DirectField(last));
    }
  }

  ghost predicate ScalarEntries(es: seq<Entry>, keySize: nat, valueSize: nat) {
    forall i :: 0 <= i < |es| ==> es[i] == Entry(Other(keySize), Other(valueSize))
  }

  lemma ScalarEntriesInline(es: seq<Entry>, keySize: nat, valueSize: nat)
    requires ScalarEntries(es, keySize, valueSize)
    ensures InlineEntries(es, Indices(|es|)) == |es| * (keySize + valueSize)
    ensures DirectEntries(es, Indices(|es|)) == {}
  {
    forall i | i in Indices(|es|)
      ensures DirectEntry(es[i]) == {} && InlineEntry(es[i]) == keySize + valueSize
    {
      assert es[i] == Entry(Other(keySize), Other(valueSize));
    }
    SumSame(EntryWeights(es), |es|, keySize + valueSize);
  }

  lemma SumSame(w: map<nat, nat>, n: nat, c: nat)
    requires Indices(n) <= w.Keys && forall i :: i in Indices(n) ==> w[i] == c
    ensures Sum(w, Indices(n)) == n * c
  {
    SumConstant(w, Indices(n), c);
    IndicesSize(n);
  }

  /** A map of scalars costs its buckets, each with a header and eight full slots. */
  lemma ScalarMapTotal(h: Heap, es: seq<Entry>, keySize: nat, valueSize: nat, s: set<nat>)
    requires ScalarEntries(es, keySize, valueSize)
    ensures Total(h, Map(keySize, valueSize, es), s) == BucketCount(|es|) * (16 + 8 * (keySize + valueSize))
  {
    ScalarEntriesInline(es, keySize, valueSize);
    ReachNothing(Links(h), {}, s);
    BucketBytes(BucketCount(|es|), FreeSlots(|es|), |es|, keySize + valueSize);
  }

  lemma {:induction false} IndicesSize(n: nat)
    ensures |Indices(n)| == n
  {
    if n > 0 {
      IndicesSize(n - 1);
      assert n - 1 !in Indices(n - 1);
    }
  }

  lemma BucketBytes(nb: nat, free: nat, len: nat, slot: nat)
    requires free + len == 8 * nb
    ensures 16 * nb + len * slot + free * slot == nb * (16 + 8 * slot)
  {
    assert len * slot + free * slot == (len + free) * slot;
  }

  /** Whether a struct's traversal looks into a field. */
  predicate Chased(f: Value) {
    f.Ptr? || f.Slice?
  }

  /**
   Only pointer and slice fields of a struct add to it: with any other values in its other
   fields, nested structs, maps and strings included, it costs the same.
   */
  lemma StructIgnoresOtherFields(h: Heap, size: nat, fs: seq<Value>, gs: seq<Value>, s: set<nat>)
    requires |fs| == |gs|
    requires forall i :: 0 <= i < |fs| ==> fs[i] == gs[i] || (!Chased(fs[i]) && !Chased(gs[i]))
    ensures Total(h, Struct(size, fs), s) == Total(h, Struct(size, gs), s)
  {
    FieldsAgree(fs, gs);
  }

  lemma {:induction false} FieldsAgree(fs: seq<Value>, gs: seq<Value>)
    requires |fs| == |gs|
    requires forall i :: 0 <= i < |fs| ==> fs[i] == gs[i] || (!Chased(fs[i]) && !Chased(gs[i]))
    ensures DirectFields(fs) == DirectFields(gs) && InlineFields(fs) == InlineFields(gs)
    decreases |fs|
  {
    if fs != [] {
      var n := |fs| - 1;
      FieldsAgree(fs[..n], gs[..n]);
      assert fs[n] == gs[n] || (!Chased(fs[n]) && !Chased(gs[n]));
    }
  }
}
