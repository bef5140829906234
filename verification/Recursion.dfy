/**
 Whether the traversal of a value ends. Here values are held in places, so that a slice or a map
 may hold itself; only pointers are looked up among the addresses seen before.
 */
module Recursion {
  import opened Wrappers
  import opened Graphs

  /** A pointer leads to a place, 0 when nil; the other kinds hold the parts that are traversed. */
  datatype Cell = Pointer(to: nat) | Holder(parts: seq<nat>)

  type Cells = map<nat, Cell>

  ghost predicate ClosedCells(c: Cells) {
    forall a :: a in c ==>
      match c[a]
      case Pointer(to) => to == 0 || to in c
      case Holder(parts) => forall i :: 0 <= i < |parts| ==> parts[i] in c
  }

  /** The addresses seen after the traversal of a place, or None if its recursion goes deeper than depth. */
  function Visit(c: Cells, a: nat, seen: set<nat>, depth: nat): Option<set<nat>>
    decreases depth, 0
  {
    if depth == 0 || a !in c then None
    else
      match c[a]
      case Pointer(to) => if to == 0 || to in seen then Some(seen) else Visit(c, to, seen + {to}, depth - 1)
      case Holder(parts) => VisitAll(c, parts, seen, depth - 1)
  }

  function VisitAll(c: Cells, parts: seq<nat>, seen: set<nat>, depth: nat): Option<set<nat>>
    decreases depth, |parts| + 1
  {
    if parts == [] then Some(seen)
    else
      var n := |parts| - 1;
      match VisitAll(c, parts[..n], seen, depth)
      case None => None
      case Some(s) => Visit(c, parts[n], s, depth)
  }

  ghost predicate Ends(c: Cells, a: nat) {
    exists depth :: Visit(c, a, {}, depth).Some?
  }

  function Next(cell: Cell): set<nat> {
    match cell
    case Pointer(to) => if to == 0 then {} else {to}
    case Holder(parts) => set x | x in parts
  }

  function Links(c: Cells): Graph {
    map a | a in c :: Next(c[a])
  }

  function HolderLinks(c: Cells): Graph {
    map a | a in c :: if c[a].Holder? then Next(c[a]) else {}
  }

  /** The place holds itself, without a pointer on the way. */
  ghost predicate HoldsItself(c: Cells, a: nat) {
    exists trail :: Loop(c, a, trail)
  }

  ghost predicate Loop(c: Cells, a: nat, trail: seq<nat>) {
    Trail(HolderLinks(c), {a}, {}, trail) && |trail| > 1 && trail[|trail| - 1] == a
  }

  // ---------- A place that holds itself is never done with ----------

  /** A traversal of all parts that ends has ended for each of them. */
  lemma {:induction false} PartVisited(c: Cells, parts: seq<nat>, seen: set<nat>, depth: nat, i: nat)
    returns (s: set<nat>)
    requires VisitAll(c, parts, seen, depth).Some? && i < |parts|
    ensures Visit(c, parts[i], s, depth).Some?
    decreases |parts|
  {
    var n := |parts| - 1;
    if i < n {
      s := PartVisited(c, parts[..n], seen, depth, i);
    } else {
      s := VisitAll(c, parts[..n], seen, depth).value;
    }
  }

  lemma {:induction false} LoopNeverEnds(c: Cells, a: nat, trail: seq<nat>, i: nat, seen: set<nat>, depth: nat)
    requires Loop(c, a, trail) && i < |trail|
    ensures Visit(c, trail[i], seen, depth).None?
    decreases depth
  {
    if depth > 0 && Visit(c, trail[i], seen, depth).Some? {
      var j := if i == |trail| - 1 then 0 else i;
      assert trail[j] == trail[i] && trail[j + 1] in HolderLinks(c)[trail[j]];
      var parts := c[trail[j]].parts;
      var k :| 0 <= k < |parts| && parts[k] == trail[j + 1];
      var s := PartVisited(c, parts, seen, depth - 1, k);
      LoopNeverEnds(c, a, trail, j + 1, s, depth - 1);
    }
  }

  // ---------- A traversal that ends has ended for all that is reached ----------

  /** Some traversal of the place that sees no more than all has ended. */
  ghost predicate Done(c: Cells, a: nat, all: set<nat>) {
    exists seen, depth :: DoneFrom(c, a, all, seen, depth)
  }

  ghost predicate DoneFrom(c: Cells, a: nat, all: set<nat>, seen: set<nat>, depth: nat) {
    && Visit(c, a, seen, depth).Some? && seen <= Visit(c, a, seen, depth).value <= all
  }

  lemma {:induction false} VisitGrows(c: Cells, a: nat, seen: set<nat>, depth: nat)
    requires Visit(c, a, seen, depth).Some?
    ensures seen <= Visit(c, a, seen, depth).value
    ensures ClosedCells(c) && seen <= c.Keys ==> Visit(c, a, seen, depth).value <= c.Keys
    decreases depth, 0
  {
    match c[a] {
      case Pointer(to) =>
        if to != 0 && to !in seen {
          VisitGrows(c, to, seen + {to}, depth - 1);
        }
      case Holder(parts) =>
        VisitAllGrows(c, parts, seen, depth - 1);
    }
  }

  lemma {:induction false} VisitAllGrows(c: Cells, parts: seq<nat>, seen: set<nat>, depth: nat)
    requires VisitAll(c, parts, seen, depth).Some?
    ensures seen <= VisitAll(c, parts, seen, depth).value
    ensures ClosedCells(c) && seen <= c.Keys ==> VisitAll(c, parts, seen, depth).value <= c.Keys
    decreases depth, |parts| + 1
  {
    if parts != [] {
      var n := |parts| - 1;
      VisitAllGrows(c, parts[..n], seen, depth);
      VisitGrows(c, parts[n], VisitAll(c, parts[..n], seen, depth).value, depth);
    }
  }

  /** Every address that comes to be seen is of a place whose traversal has ended. */
  lemma {:induction false} SeenIsDone(c: Cells, a: nat, seen: set<nat>, depth: nat, all: set<nat>, b: nat)
    requires Visit(c, a, seen, depth).Some? && Visit(c, a, seen, depth).value <= all
    requires b in Visit(c, a, seen, depth).value && b !in seen
    ensures Done(c, b, all)
    decreases depth, 0
  {
    match c[a] {
      case Pointer(to) =>
        if b == to {
          VisitGrows(c, to, seen + {to}, depth - 1);
          assert DoneFrom(c, to, all, seen + {to}, depth - 1);
        } else {
          SeenIsDone(c, to, seen + {to}, depth - 1, all, b);
        }
      case Holder(parts) =>
        AllSeenIsDone(c, parts, seen, depth - 1, all, b);
    }
  }

  lemma {:induction false} AllSeenIsDone(c: Cells, parts: seq<nat>, seen: set<nat>, depth: nat, all: set<nat>, b: nat)
    requires VisitAll(c, parts, seen, depth).Some? && VisitAll(c, parts, seen, depth).value <= all
    requires b in VisitAll(c, parts, seen, depth).value && b !in seen
    ensures Done(c, b, all)
    decreases depth, |parts| + 1
  {
    var n := |parts| - 1;
    var s := VisitAll(c, parts[..n], seen, depth).value;
    VisitGrows(c, parts[n], s, depth);
    if b in s {
      AllSeenIsDone(c, parts[..n], seen, depth, all, b);
    } else {
      SeenIsDone(c, parts[n], s, depth, all, b);
    }
  }

  lemma {:induction false} PartsDone(c: Cells, parts: seq<nat>, seen: set<nat>, depth: nat, all: set<nat>, i: nat)
    requires VisitAll(c, parts, seen, depth).Some? && VisitAll(c, parts, seen, depth).value <= all && i < |parts|
    ensures Done(c, parts[i], all)
    decreases |parts|
  {
    var n := |parts| - 1;
    var s := VisitAll(c, parts[..n], seen, depth).value;
    VisitGrows(c, parts[n], s, depth);
    if i < n {
      PartsDone(c, parts[..n], seen, depth, all, i);
    } else {
      assert DoneFrom(c, parts[n], all, s, depth);
    }
  }

  lemma DoneOn(c: Cells, a: nat, b: nat, all: set<nat>)
    requires Done(c, a, all) && a in c && b in Next(c[a])
    requires forall x :: x in all ==> Done(c, x, all)
    ensures Done(c, b, all)
  {
    var seen, depth :| DoneFrom(c, a, all, seen, depth);
    match c[a] {
      case Pointer(to) =>
        if to !in seen {
          VisitGrows(c, to, seen + {to}, depth - 1);
          assert DoneFrom(c, to, all, seen + {to}, depth - 1);
        }
      case Holder(parts) =>
        var i :| 0 <= i < |parts| && parts[i] == b;
        PartsDone(c, parts, seen, depth - 1, all, i);
    }
  }

  lemma {:induction false} TrailDone(c: Cells, a: nat, trail: seq<nat>, all: set<nat>)
    requires Trail(Links(c), {a}, {}, trail) && Done(c, a, all)
    requires forall x :: x in all ==> Done(c, x, all)
    ensures Done(c, trail[|trail| - 1], all)
    decreases |trail|
  {
    var n := |trail| - 1;
    if n > 0 {
      assert Trail(Links(c), {a}, {}, trail[..n]);
      TrailDone(c, a, trail[..n], all);
      assert trail[n] in Links(c)[trail[n - 1]];
      DoneOn(c, trail[n - 1], trail[n], all);
    }
  }

  lemma EndsReachesNoLoop(c: Cells, a: nat, x: nat)
    requires Ends(c, a) && Reachable(Links(c), {a}, {}, x)
    ensures !HoldsItself(c, x)
  {
    var depth :| Visit(c, a, {}, depth).Some?;
    var all := Visit(c, a, {}, depth).value;
    assert DoneFrom(c, a, all, {}, depth);
    forall b | b in all
      ensures Done(c, b, all)
    {
      SeenIsDone(c, a, {}, depth, all, b);
    }
    var trail :| Trail(Links(c), {a}, {}, trail) && trail[|trail| - 1] == x;
    TrailDone(c, a, trail, all);
    var seen, d :| DoneFrom(c, x, all, seen, d);
    if loop :| Loop(c, x, loop) {
      LoopNeverEnds(c, x, loop, 0, seen, d);
    }
  }

  // ---------- A traversal that does not end meets such a place ----------

  lemma {:induction false} PartNotVisited(c: Cells, parts: seq<nat>, seen: set<nat>, depth: nat)
    returns (i: nat, s: set<nat>)
    requires VisitAll(c, parts, seen, depth).None?
    ensures i < |parts| && seen <= s && Visit(c, parts[i], s, depth).None?
    ensures ClosedCells(c) && seen <= c.Keys ==> s <= c.Keys
    decreases |parts|
  {
    var n := |parts| - 1;
    if VisitAll(c, parts[..n], seen, depth).None? {
      i, s := PartNotVisited(c, parts[..n], seen, depth);
    } else {
      i, s := n, VisitAll(c, parts[..n], seen, depth).value;
      VisitAllGrows(c, parts[..n], seen, depth);
    }
  }

  ghost predicate Distinct(trail: seq<nat>) {
    forall i, j :: 0 <= i < j < |trail| ==> trail[i] != trail[j]
  }

  lemma {:induction false} DistinctFits(trail: seq<nat>, s: set<nat>)
    requires Distinct(trail) && forall i :: 0 <= i < |trail| ==> trail[i] in s
    ensures |trail| <= |s|
    decreases |trail|
  {
    if trail != [] {
      var n := |trail| - 1;
      DistinctFits(trail[..n], s - {trail[n]});
    }
  }

  /** Deep enough for every pointer to be followed once, with every place held once in between. */
  function Deep(unseen: nat, places: nat): nat {
    if unseen == 0 then 0 else Deep(unseen - 1, places) + places + 1
  }

  lemma {:induction false} DeepWithFewer(unseen: nat, fewer: nat, places: nat)
    requires fewer <= unseen
    ensures Deep(fewer, places) <= Deep(unseen, places)
  {
    if fewer < unseen {
      DeepWithFewer(unseen - 1, fewer, places);
    }
  }

  lemma SizeLess(s: set<nat>, t: set<nat>)
    requires s <= t
    ensures |s| <= |t| && (s != t ==> |s| < |t|)
  {
    assert t == s + (t - s);
    if s != t {
      assert t - s != {};
    }
  }

  lemma SeesLess(all: set<nat>, seen: set<nat>, s: set<nat>)
    requires seen <= s <= all
    ensures Deep(|all - s|, |all|) <= Deep(|all - seen|, |all|)
    ensures seen != s ==> Deep(|all - s|, |all|) + |all| + 1 <= Deep(|all - seen|, |all|)
  {
    SizeLess(all - s, all - seen);
    DeepWithFewer(|all - seen|, |all - s|, |all|);
    if seen != s {
      assert exists x :: x in s - seen && x !in all - s && x in all - seen;
      DeepWithFewer(|all - seen| - 1, |all - s|, |all|);
    }
  }

  lemma TrailOn(c: Cells, trail: seq<nat>, to: nat)
    requires trail != [] && Trail(HolderLinks(c), {trail[0]}, {}, trail)
    requires to in c && to in HolderLinks(c)[trail[|trail| - 1]]
    ensures Trail(HolderLinks(c), {trail[0]}, {}, trail + [to])
    ensures to in trail ==> HoldsItself(c, to)
  {
    if to in trail {
      var j :| 0 <= j < |trail| && trail[j] == to;
      assert Loop(c, to, trail[j..] + [to]);
    }
  }

  /**
   The trail leads, through holders alone, to a place that is reached and where the recursion,
   however deep, is not over.
   */
  ghost predicate TooDeep(c: Cells, a: nat, trail: seq<nat>, seen: set<nat>, depth: nat) {
    && trail != [] && Trail(HolderLinks(c), {trail[0]}, {}, trail) && Distinct(trail)
    && Reachable(Links(c), {a}, {}, trail[|trail| - 1])
    && seen <= c.Keys && depth + |trail| > Deep(|c.Keys - seen|, |c.Keys|) + |c.Keys|
    && Visit(c, trail[|trail| - 1], seen, depth).None?
  }

  lemma TooDeepAtPointer(c: Cells, a: nat, trail: seq<nat>, seen: set<nat>, depth: nat)
    requires ClosedCells(c) && TooDeep(c, a, trail, seen, depth) && c[trail[|trail| - 1]].Pointer?
    ensures depth > 0
    ensures var to := c[trail[|trail| - 1]].to;
            TooDeep(c, a, [to], seen + {to}, depth - 1)
  {
    DistinctFits(trail, c.Keys);
    var b := trail[|trail| - 1];
    var to := c[b].to;
    SeesLess(c.Keys, seen, seen + {to});
    assert to in seen + {to};
    ReachableOn(Links(c), {a}, {}, b, to);
    assert Trail(HolderLinks(c), {to}, {}, [to]);
  }

  lemma TooDeepAtHolder(c: Cells, a: nat, trail: seq<nat>, seen: set<nat>, depth: nat)
    returns (to: nat, s: set<nat>)
    requires ClosedCells(c) && TooDeep(c, a, trail, seen, depth) && c[trail[|trail| - 1]].Holder?
    ensures depth > 0 && to in c && Reachable(Links(c), {a}, {}, to)
    ensures HoldsItself(c, to) || TooDeep(c, a, trail + [to], s, depth - 1)
  {
    DistinctFits(trail, c.Keys);
    var b := trail[|trail| - 1];
    var parts := c[b].parts;
    var i;
    i, s := PartNotVisited(c, parts, seen, depth - 1);
    to := parts[i];
    SeesLess(c.Keys, seen, s);
    ReachableOn(Links(c), {a}, {}, b, to);
    TrailOn(c, trail, to);
  }

  ghost predicate SomewhereTooDeep(c: Cells, a: nat, depth: nat) {
    exists trail, seen :: TooDeep(c, a, trail, seen, depth)
  }

  ghost predicate LoopReached(c: Cells, a: nat, x: nat) {
    Reachable(Links(c), {a}, {}, x) && HoldsItself(c, x)
  }

  ghost predicate MeetsLoop(c: Cells, a: nat) {
    exists x :: LoopReached(c, a, x)
  }

  /** One level down: either the loop is there, or that is too deep as well. */
  lemma TooDeepOn(c: Cells, a: nat, depth: nat)
    requires ClosedCells(c) && SomewhereTooDeep(c, a, depth)
    ensures depth > 0 && (MeetsLoop(c, a) || SomewhereTooDeep(c, a, depth - 1))
  {
    var trail, seen :| TooDeep(c, a, trail, seen, depth);
    var b := trail[|trail| - 1];
    assert b in c;
    if c[b].Pointer? {
      TooDeepAtPointer(c, a, trail, seen, depth);
    } else {
      var to, s := TooDeepAtHolder(c, a, trail, seen, depth);
      assert HoldsItself(c, to) ==> LoopReached(c, a, to);
    }
  }

  /** What goes on one level down unless q holds cannot go on for ever. */
  lemma {:induction false} Descends(p: nat -> bool, q: bool, depth: nat)
    requires p(depth) && forall d: nat :: p(d) ==> d > 0 && (q || p(d - 1))
    ensures q
  {
    if !q {
      Descends(p, q, depth - 1);
    }
  }

  lemma TooDeepMeetsLoop(c: Cells, a: nat, depth: nat)
    requires ClosedCells(c) && SomewhereTooDeep(c, a, depth)
    ensures MeetsLoop(c, a)
  {
    forall d: nat | SomewhereTooDeep(c, a, d)
      ensures d > 0 && (MeetsLoop(c, a) || SomewhereTooDeep(c, a, d - 1))
    {
      TooDeepOn(c, a, d);
    }
    Descends((d: nat) => SomewhereTooDeep(c, a, d), MeetsLoop(c, a), depth);
  }

  /**
   The traversal of a place ends exactly if it reaches no place that holds itself: cycles through
   pointers are cut, those through slices and maps alone are not.
   */
  lemma EndsIff(c: Cells, a: nat)
    requires ClosedCells(c) && a in c
    ensures Ends(c, a) <==> !exists x :: LoopReached(c, a, x)
  {
    if x :| LoopReached(c, a, x) {
      if Ends(c, a) {
        EndsReachesNoLoop(c, a, x);
      }
    }
    DistinctFits([a], c.Keys);
    var depth := Deep(|c.Keys|, |c.Keys|) + |c.Keys|;
    if Visit(c, a, {}, depth).None? {
      assert c.Keys - {} == c.Keys;
      assert Trail(Links(c), {a}, {}, [a]) && Trail(HolderLinks(c), {a}, {}, [a]);
      assert TooDeep(c, a, [a], {}, depth);
      TooDeepMeetsLoop(c, a, depth);
    }
  }

  /** A slice that is its own element: the traversal never ends. */
  lemma SelfHolding()
    ensures var c := map[1 := Holder([1])];
            ClosedCells(c) && !Ends(c, 1)
  {
    var c := map[1 := Holder([1])];
    assert Loop(c, 1, [1, 1]) && HoldsItself(c, 1);
    assert Trail(Links(c), {1}, {}, [1]) && LoopReached(c, 1, 1);
    EndsIff(c, 1);
  }
}
