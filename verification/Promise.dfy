/**
 The size that is promised: that of the type, and of all recursive substructures through maps,
 pointers and slices, each address once. How far the computed size is from it, exactly.
 */
module Promise {
  import opened FiniteSums
  import opened Graphs
  import opened SizeOf

  // ---------- The promised size ----------

  /** The size of a value's type. */
  function Header(v: Value): nat {
    match v
    case Ptr(_) => WORD
    case Slice(_, _, _) => SLICE_HEADER
    case Map(_, _, _) => WORD
    case Struct(size, _) => size
    case Array(size, _) => size
    case Str(_) => STRING_HEADER
    case Other(size) => size
  }

  /**
   What a value owns beyond its type's size: the array under a slice, at the size of an
   element per spare slot, the buckets of a map, the bytes of a string; for a struct or an array,
   what its parts own beyond theirs.
   */
  ghost function Beyond(v: Value): nat
    decreases v, 0
  {
    match v
    case Ptr(_) => 0
    case Slice(elemSize, elems, capacity) => WholeAll(elems) + elemSize * Spare(capacity, |elems|)
    case Map(keySize, valueSize, entries) =>
      16 * BucketCount(|entries|) + Sum(WholeEntries(entries), Indices(|entries|))
      + FreeBytes(|entries|, keySize + valueSize)
    case Struct(_, fields) => BeyondAll(fields)
    case Array(_, elems) => BeyondAll(elems)
    case Str(len) => len
    case Other(_) => 0
  }

  ghost function Whole(v: Value): nat
    decreases v, 1
  {
    Header(v) + Beyond(v)
  }

  ghost function WholeAll(vs: seq<Value>): nat
    decreases vs
  {
    if vs == [] then 0 else WholeAll(vs[..|vs| - 1]) + Whole(vs[|vs| - 1])
  }

  ghost function BeyondAll(vs: seq<Value>): nat
    decreases vs
  {
    if vs == [] then 0 else BeyondAll(vs[..|vs| - 1]) + Beyond(vs[|vs| - 1])
  }

  ghost function WholeEntries(es: seq<Entry>): map<nat, nat>
    decreases es, 0
  {
    map i | i in Indices(|es|) :: WholeEntry(es[i])
  }

  ghost function WholeEntry(e: Entry): nat
    decreases e
  {
    Whole(e.key) + Whole(e.value)
  }

  /** The addresses a value leads to directly, through all its parts. */
  ghost function Leads(v: Value): set<nat>
    decreases v, 0
  {
    match v
    case Ptr(a) => if a == 0 then {} else {a}
    case Slice(_, elems, _) => LeadsAll(elems)
    case Map(_, _, entries) => set i, a | i in Indices(|entries|) && a in LeadsEntry(entries[i]) :: a
    case Struct(_, fields) => LeadsAll(fields)
    case Array(_, elems) => LeadsAll(elems)
    case Str(_) => {}
    case Other(_) => {}
  }

  ghost function LeadsAll(vs: seq<Value>): set<nat>
    decreases vs
  {
    if vs == [] then {} else LeadsAll(vs[..|vs| - 1]) + Leads(vs[|vs| - 1])
  }

  ghost function LeadsEntry(e: Entry): set<nat>
    decreases e
  {
    Leads(e.key) + Leads(e.value)
  }

  ghost function AllLinks(h: Heap): Graph {
    map a | a in h :: Leads(h[a])
  }

  ghost function WholeWeights(h: Heap): map<nat, nat> {
    map a | a in h :: Whole(h[a])
  }

  ghost function Computed(h: Heap, v: Value): set<nat> {
    Reach(Links(h), Direct(v), {})
  }

  ghost function Reached(h: Heap, v: Value): set<nat> {
    Reach(AllLinks(h), Leads(v), {})
  }

  ghost function Promised(h: Heap, v: Value): nat {
    Whole(v) + Sum(WholeWeights(h), Reached(h, v))
  }

  // ---------- What a value without its pointees is off by ----------

  /**
   Bytes left out: a map's own word, spare slots of elements larger than a slice header, and
   what the parts of an array and the fields of a struct own, pointer and slice fields excepted.
   */
  ghost function Missing(v: Value): nat
    decreases v, 0
  {
    match v
    case Slice(elemSize, elems, capacity) =>
      MissingAll(elems) + if elemSize > SLICE_HEADER then (elemSize - SLICE_HEADER) * Spare(capacity, |elems|) else 0
    case Map(_, _, entries) => WORD + Sum(MissingEntries(entries), Indices(|entries|))
    case Struct(_, fields) => MissingFields(fields)
    case Array(_, elems) => BeyondAll(elems)
    case _ => 0
  }

  ghost function MissingAll(vs: seq<Value>): nat
    decreases vs
  {
    if vs == [] then 0 else MissingAll(vs[..|vs| - 1]) + Missing(vs[|vs| - 1])
  }

  ghost function MissingFields(fs: seq<Value>): nat
    decreases fs
  {
    if fs == [] then 0 else MissingFields(fs[..|fs| - 1]) + MissingField(fs[|fs| - 1])
  }

  ghost function MissingField(f: Value): nat
    decreases f, 1
  {
    if f.Slice? then Missing(f) else Beyond(f)
  }

  ghost function MissingEntries(es: seq<Entry>): map<nat, nat>
    decreases es, 0
  {
    map i | i in Indices(|es|) :: MissingEntry(es[i])
  }

  ghost function MissingEntry(e: Entry): nat
    decreases e
  {
    Missing(e.key) + Missing(e.value)
  }

  /** Bytes too many: spare slots of elements smaller than a slice header, and slice fields' headers again. */
  ghost function Excess(v: Value): nat
    decreases v, 0
  {
    match v
    case Slice(elemSize, elems, capacity) =>
      ExcessAll(elems) + if elemSize < SLICE_HEADER then (SLICE_HEADER - elemSize) * Spare(capacity, |elems|) else 0
    case Map(_, _, entries) => Sum(ExcessEntries(entries), Indices(|entries|))
    case Struct(_, fields) => ExcessFields(fields)
    case _ => 0
  }

  ghost function ExcessAll(vs: seq<Value>): nat
    decreases vs
  {
    if vs == [] then 0 else ExcessAll(vs[..|vs| - 1]) + Excess(vs[|vs| - 1])
  }

  ghost function ExcessFields(fs: seq<Value>): nat
    decreases fs
  {
    if fs == [] then 0 else ExcessFields(fs[..|fs| - 1]) + ExcessField(fs[|fs| - 1])
  }

  ghost function ExcessField(f: Value): nat
    decreases f, 1
  {
    if f.Slice? then SLICE_HEADER + Excess(f) else 0
  }

  ghost function ExcessEntries(es: seq<Entry>): map<nat, nat>
    decreases es, 0
  {
    map i | i in Indices(|es|) :: ExcessEntry(es[i])
  }

  ghost function ExcessEntry(e: Entry): nat
    decreases e
  {
    Excess(e.key) + Excess(e.value)
  }

  lemma SpareBalance(elemSize: nat, spare: nat)
    ensures SLICE_HEADER * spare + (if elemSize > SLICE_HEADER then (elemSize - SLICE_HEADER) * spare else 0)
         == elemSize * spare + (if elemSize < SLICE_HEADER then (SLICE_HEADER - elemSize) * spare else 0)
  {
    if elemSize > SLICE_HEADER {
      assert elemSize * spare == SLICE_HEADER * spare + (elemSize - SLICE_HEADER) * spare;
    } else {
      assert SLICE_HEADER * spare == elemSize * spare + (SLICE_HEADER - elemSize) * spare;
    }
  }

  /** A value's own bytes as computed and as promised differ by exactly this. */
  lemma {:induction false} OwnBalance(v: Value)
    ensures Inline(v) + Missing(v) == Whole(v) + Excess(v)
    decreases v, 0
  {
    match v {
      case Slice(elemSize, elems, capacity) =>
        AllBalance(elems);
        SpareBalance(elemSize, Spare(capacity, |elems|));
      case Map(keySize, valueSize, entries) =>
        EntriesBalance(entries);
        MapParts(keySize, valueSize, entries);
      case Struct(_, fields) =>
        FieldsBalance(fields);
      case _ =>
    }
  }

  lemma {:induction false} AllBalance(vs: seq<Value>)
    ensures InlineAll(vs) + MissingAll(vs) == WholeAll(vs) + ExcessAll(vs)
    decreases vs
  {
    if vs != [] {
      AllBalance(vs[..|vs| - 1]);
      OwnBalance(vs[|vs| - 1]);
    }
  }

  lemma {:induction false} FieldsBalance(fs: seq<Value>)
    ensures InlineFields(fs) + MissingFields(fs) == BeyondAll(fs) + ExcessFields(fs)
    decreases fs
  {
    if fs != [] {
      FieldsBalance(fs[..|fs| - 1]);
      OwnBalance(fs[|fs| - 1]);
    }
  }

  lemma {:induction false} EntriesBalance(es: seq<Entry>)
    ensures InlineEntries(es, Indices(|es|)) + Sum(MissingEntries(es), Indices(|es|))
         == Sum(WholeEntries(es), Indices(|es|)) + Sum(ExcessEntries(es), Indices(|es|))
    decreases es, 0
  {
    forall i | i in Indices(|es|)
      ensures InlineEntry(es[i]) + MissingEntry(es[i]) == WholeEntry(es[i]) + ExcessEntry(es[i])
    {
      EntryBalance(es[i]);
    }
    SumBalance(EntryWeights(es), MissingEntries(es), WholeEntries(es), ExcessEntries(es), Indices(|es|));
  }

  lemma {:induction false} EntryBalance(e: Entry)
    ensures InlineEntry(e) + MissingEntry(e) == WholeEntry(e) + ExcessEntry(e)
    decreases e
  {
    OwnBalance(e.key);
    OwnBalance(e.value);
  }

  // ---------- What is not reached ----------

  lemma {:induction false} DirectLeads(v: Value)
    ensures Direct(v) <= Leads(v)
    decreases v, 0
  {
    match v {
      case Slice(_, elems, _) =>
        AllLeads(elems);
      case Map(_, _, entries) =>
        forall i | i in Indices(|entries|)
          ensures DirectEntry(entries[i]) <= LeadsEntry(entries[i])
        {
          EntryLeads(entries[i]);
        }
      case Struct(_, fields) =>
        FieldsLeads(fields);
      case _ =>
    }
  }

  lemma {:induction false} AllLeads(vs: seq<Value>)
    ensures DirectAll(vs) <= LeadsAll(vs)
    decreases vs
  {
    if vs != [] {
      AllLeads(vs[..|vs| - 1]);
      DirectLeads(vs[|vs| - 1]);
    }
  }

  lemma {:induction false} FieldsLeads(fs: seq<Value>)
    ensures DirectFields(fs) <= LeadsAll(fs)
    decreases fs
  {
    if fs != [] {
      FieldsLeads(fs[..|fs| - 1]);
      DirectLeads(fs[|fs| - 1]);
    }
  }

  lemma {:induction false} EntryLeads(e: Entry)
    ensures DirectEntry(e) <= LeadsEntry(e)
    decreases e
  {
    DirectLeads(e.key);
    DirectLeads(e.value);
  }

  lemma ComputedReached(h: Heap, v: Value)
    ensures Computed(h, v) <= Reached(h, v)
  {
    DirectLeads(v);
    forall a | a in h
      ensures Direct(h[a]) <= Leads(h[a])
    {
      DirectLeads(h[a]);
    }
    ReachGrows(Links(h), AllLinks(h), Direct(v), Leads(v), {});
  }

  // ---------- How far the computed size is from the promised one ----------

  ghost function MissingWeights(h: Heap): map<nat, nat> {
    map a | a in h :: Missing(h[a])
  }

  ghost function ExcessWeights(h: Heap): map<nat, nat> {
    map a | a in h :: Excess(h[a])
  }

  /** All bytes left out: of the value, of the pointees reached, and the whole of those not reached. */
  ghost function LeftOut(h: Heap, v: Value): nat {
    ComputedReached(h, v);
    Missing(v) + Sum(MissingWeights(h), Computed(h, v))
    + Sum(WholeWeights(h), Reached(h, v) - Computed(h, v))
  }

  /** All bytes too many. */
  ghost function TooMany(h: Heap, v: Value): nat {
    Excess(v) + Sum(ExcessWeights(h), Computed(h, v))
  }

  /**
   The computed total is the promised one less exactly what is left out, and more by exactly
   what is counted too much.
   */
  lemma TotalBalance(h: Heap, v: Value)
    ensures Total(h, v, {}) + LeftOut(h, v) == Promised(h, v) + TooMany(h, v)
  {
    var r, r' := Computed(h, v), Reached(h, v);
    OwnBalance(v);
    forall a | a in h
      ensures Inline(h[a]) + Missing(h[a]) == Whole(h[a]) + Excess(h[a])
    {
      OwnBalance(h[a]);
    }
    SumBalance(Weights(h), MissingWeights(h), WholeWeights(h), ExcessWeights(h), r);
    ComputedReached(h, v);
    SumUnion(WholeWeights(h), r, r' - r);
    assert r + (r' - r) == r';
  }

  // ---------- When the promise is kept ----------

  /** No map, no spare slot of large elements, no array or struct part that owns anything, slice fields aside. */
  ghost predicate Covered(v: Value)
    decreases v, 0
  {
    match v
    case Slice(elemSize, elems, capacity) =>
      (elemSize <= SLICE_HEADER || capacity <= |elems|) && forall i :: 0 <= i < |elems| ==> Covered(elems[i])
    case Map(_, _, _) => false
    case Struct(_, fields) => forall i :: 0 <= i < |fields| ==> CoveredField(fields[i])
    case Array(_, elems) => forall i :: 0 <= i < |elems| ==> Beyond(elems[i]) == 0
    case _ => true
  }

  ghost predicate CoveredField(f: Value)
    decreases f, 1
  {
    if f.Slice? then Covered(f) else Beyond(f) == 0
  }

  /** No struct with a slice field, and no spare slot of small elements. */
  ghost predicate Once(v: Value)
    decreases v
  {
    match v
    case Slice(elemSize, elems, capacity) =>
      (elemSize >= SLICE_HEADER || capacity <= |elems|) && forall i :: 0 <= i < |elems| ==> Once(elems[i])
    case Map(_, _, entries) => forall i :: 0 <= i < |entries| ==> Once(entries[i].key) && Once(entries[i].value)
    case Struct(_, fields) => forall i :: 0 <= i < |fields| ==> !fields[i].Slice?
    case _ => true
  }

  lemma {:induction false} BeyondAllZeroIff(vs: seq<Value>)
    ensures BeyondAll(vs) == 0 <==> forall i :: 0 <= i < |vs| ==> Beyond(vs[i]) == 0
    decreases |vs|
  {
    if vs != [] {
      BeyondAllZeroIff(vs[..|vs| - 1]);
    }
  }

  lemma {:induction false} MissingZeroIff(v: Value)
    ensures Missing(v) == 0 <==> Covered(v)
    decreases v, 0
  {
    match v {
      case Slice(elemSize, elems, capacity) =>
        MissingAllZeroIff(elems);
        if elemSize > SLICE_HEADER && capacity > |elems| {
          assert (elemSize - SLICE_HEADER) * Spare(capacity, |elems|) > 0;
        }
      case Struct(_, fields) =>
        MissingFieldsZeroIff(fields);
      case Array(_, elems) =>
        BeyondAllZeroIff(elems);
      case _ =>
    }
  }

  lemma {:induction false} MissingAllZeroIff(vs: seq<Value>)
    ensures MissingAll(vs) == 0 <==> forall i :: 0 <= i < |vs| ==> Covered(vs[i])
    decreases vs
  {
    if vs != [] {
      MissingAllZeroIff(vs[..|vs| - 1]);
      MissingZeroIff(vs[|vs| - 1]);
    }
  }

  lemma {:induction false} MissingFieldsZeroIff(fs: seq<Value>)
    ensures MissingFields(fs) == 0 <==> forall i :: 0 <= i < |fs| ==> CoveredField(fs[i])
    decreases fs
  {
    if fs != [] {
      MissingFieldsZeroIff(fs[..|fs| - 1]);
      MissingZeroIff(fs[|fs| - 1]);
    }
  }

  lemma {:induction false} ExcessZeroIff(v: Value)
    ensures Excess(v) == 0 <==> Once(v)
    decreases v, 0
  {
    match v {
      case Slice(elemSize, elems, capacity) =>
        ExcessAllZeroIff(elems);
        if elemSize < SLICE_HEADER && capacity > |elems| {
          assert (SLICE_HEADER - elemSize) * Spare(capacity, |elems|) > 0;
        }
      case Map(_, _, entries) =>
        forall i | i in Indices(|entries|)
          ensures ExcessEntries(entries)[i] == 0 <==> Once(entries[i].key) && Once(entries[i].value)
        {
          ExcessEntryZeroIff(entries[i]);
        }
        SumZeroIff(ExcessEntries(entries), Indices(|entries|));
      case Struct(_, fields) =>
        ExcessFieldsZeroIff(fields);
      case _ =>
    }
  }

  lemma {:induction false} ExcessEntryZeroIff(e: Entry)
    ensures ExcessEntry(e) == 0 <==> Once(e.key) && Once(e.value)
    decreases e
  {
    ExcessZeroIff(e.key);
    ExcessZeroIff(e.value);
  }

  lemma {:induction false} ExcessAllZeroIff(vs: seq<Value>)
    ensures ExcessAll(vs) == 0 <==> forall i :: 0 <= i < |vs| ==> Once(vs[i])
    decreases vs
  {
    if vs != [] {
      ExcessAllZeroIff(vs[..|vs| - 1]);
      ExcessZeroIff(vs[|vs| - 1]);
    }
  }

  lemma {:induction false} ExcessFieldsZeroIff(fs: seq<Value>)
    ensures ExcessFields(fs) == 0 <==> forall i :: 0 <= i < |fs| ==> !fs[i].Slice?
    decreases |fs|
  {
    if fs != [] {
      ExcessFieldsZeroIff(fs[..|fs| - 1]);
    }
  }

  /** The value and all it reaches are covered, and only pointees of no size are not reached. */
  ghost predicate AllCovered(h: Heap, v: Value) {
    && Covered(v)
    && (forall a :: a in Computed(h, v) ==> Covered(h[a]))
    && (forall a :: a in Reached(h, v) && a !in Computed(h, v) ==> Whole(h[a]) == 0)
  }

  ghost predicate AllOnce(h: Heap, v: Value) {
    Once(v) && forall a :: a in Computed(h, v) ==> Once(h[a])
  }

  lemma LeftOutZeroIff(h: Heap, v: Value)
    ensures LeftOut(h, v) == 0 <==> AllCovered(h, v)
  {
    MissingZeroIff(v);
    forall a | a in h
      ensures MissingWeights(h)[a] == 0 <==> Covered(h[a])
    {
      MissingZeroIff(h[a]);
    }
    SumZeroIff(MissingWeights(h), Computed(h, v));
    SumZeroIff(WholeWeights(h), Reached(h, v) - Computed(h, v));
  }

  lemma TooManyZeroIff(h: Heap, v: Value)
    ensures TooMany(h, v) == 0 <==> AllOnce(h, v)
  {
    ExcessZeroIff(v);
    forall a | a in h
      ensures ExcessWeights(h)[a] == 0 <==> Once(h[a])
    {
      ExcessZeroIff(h[a]);
    }
    SumZeroIff(ExcessWeights(h), Computed(h, v));
  }

  /**
   The computed total is the promised one exactly if as much is left out as is counted too
   much. With nothing counted too much it is never more, and right exactly if all is covered;
   with all covered it is never less, and right exactly if nothing is counted too much.
   */
  lemma PromiseKeptIff(h: Heap, v: Value)
    ensures Total(h, v, {}) == Promised(h, v) <==> LeftOut(h, v) == TooMany(h, v)
    ensures AllOnce(h, v) ==>
              && Total(h, v, {}) <= Promised(h, v)
              && (Total(h, v, {}) == Promised(h, v) <==> AllCovered(h, v))
    ensures AllCovered(h, v) ==>
              && Total(h, v, {}) >= Promised(h, v)
              && (Total(h, v, {}) == Promised(h, v) <==> AllOnce(h, v))
  {
    TotalBalance(h, v);
    LeftOutZeroIff(h, v);
    TooManyZeroIff(h, v);
  }

  // ---------- Values for which it is not kept ----------

  lemma NothingReached(v: Value)
    requires Direct(v) == {} && Leads(v) == {}
    ensures Total(map[], v, {}) == Inline(v) && Promised(map[], v) == Whole(v)
  {
    ReachNothing(Links(map[]), {}, {});
    ReachNothing(AllLinks(map[]), {}, {});
  }

  /** What a single part contributes to the promised size, and a single field to the computed one. */
  lemma OnePart(f: Value)
    ensures BeyondAll([f]) == Beyond(f) && LeadsAll([f]) == Leads(f)
    ensures InlineFields([f]) == InlineField(f) && DirectFields([f]) == DirectField(f)
  {
    var fs := [f];
    assert fs[..|fs| - 1] == [] && fs[|fs| - 1] == f;
    assert BeyondAll(fs) == BeyondAll([]) + Beyond(f) && LeadsAll(fs) == LeadsAll([]) + Leads(f);
    assert InlineFields(fs) == InlineFields([]) + InlineField(f);
    assert DirectFields(fs) == DirectFields([]) + DirectField(f);
  }

  /** A string in a field costs nothing beyond its header. */
  lemma StringFieldLeftOut(len: nat)
    ensures var v := Struct(16, [Str(len)]);
            Total(map[], v, {}) == 16 && Promised(map[], v) == 16 + len
  {
    var v := Struct(16, [Str(len)]);
    OnePart(Str(len));
    NothingReached(v);
  }

  /** A map in a field costs nothing beyond its word. */
  lemma MapFieldLeftOut()
    ensures var v := Struct(8, [Map(8, 8, [])]);
            Total(map[], v, {}) == 8 && Promised(map[], v) == 152
  {
    var v := Struct(8, [Map(8, 8, [])]);
    EmptyMap();
    OnePart(Map(8, 8, []));
    NothingReached(v);
  }

  lemma EmptyMap()
    ensures var v := Map(8, 8, []);
            Direct(v) == Leads(v) == {} && Inline(v) == 144 && Beyond(v) == 144
  {
  }

  /** A map's own word is not counted. */
  lemma MapWordLeftOut()
    ensures var v := Map(8, 8, []);
            Total(map[], v, {}) == 144 && Promised(map[], v) == 152
  {
    EmptyMap();
    NothingReached(Map(8, 8, []));
  }

  /** What a pointer in a struct within a struct, or in an array, leads to is not reached. */
  lemma NestedPointerLeftOut(v: Value)
    requires v == Struct(8, [Struct(8, [Ptr(1)])]) || v == Array(8, [Ptr(1)])
    ensures var h := map[1 := Other(100)];
            Closed(h) && Total(h, v, {}) == 8 && Promised(h, v) == 108
  {
    var h := map[1 := Other(100)];
    var parts := if v.Struct? then v.fields else v.elems;
    assert parts[..0] == [];
    assert v.Struct? ==> parts[0].fields[..0] == [];
    ReachNothing(Links(h), {}, {});
    assert Leads(v) == {1};
    ReachLeaf(AllLinks(h), 1);
    SumConstant(WholeWeights(h), {1}, 100);
  }

  /** A string in an array costs nothing beyond its header. */
  lemma StringElementLeftOut(len: nat)
    ensures var v := Array(16, [Str(len)]);
            Total(map[], v, {}) == 16 && Promised(map[], v) == 16 + len
  {
    OnePart(Str(len));
    NothingReached(Array(16, [Str(len)]));
  }

  /** A slice field's header is counted in the struct and again with the slice. */
  lemma SliceFieldTwice()
    ensures var v := Struct(24, [Slice(8, [Other(8)], 1)]);
            Total(map[], v, {}) == 56 && Promised(map[], v) == 32
  {
    var v := Struct(24, [Slice(8, [Other(8)], 1)]);
    assert v.fields[..0] == [] && v.fields[0].elems[..0] == [];
    NothingReached(v);
  }

  /** Spare slots cost as much as slice headers, whatever they are slots for. */
  lemma SpareSlots(elemSize: nat)
    ensures var v := Slice(elemSize, [], 100);
            Total(map[], v, {}) == 2424 && Promised(map[], v) == 24 + 100 * elemSize
  {
    assert Spare(100, 0) == 100;
    NothingReached(Slice(elemSize, [], 100));
    assert Beyond(Slice(elemSize, [], 100)) == elemSize * 100;
  }
}
