/** Graphs over numbers, and what can be reached in them past what has been seen. */
module Graphs {

  /** The nodes that each node leads to. */
  type Graph = map<nat, set<nat>>

  ghost predicate EdgesInside(g: Graph) {
    forall a :: a in g ==> g[a] <= g.Keys
  }

  /** A chain of edges from one of the roots that never meets a seen node. */
  ghost predicate Trail(g: Graph, roots: set<nat>, seen: set<nat>, trail: seq<nat>) {
    && trail != [] && trail[0] in roots
    && (forall i :: 0 <= i < |trail| ==> trail[i] in g && trail[i] !in seen)
    && (forall i :: 0 < i < |trail| ==> trail[i] in g[trail[i - 1]])
  }

  ghost predicate Reachable(g: Graph, roots: set<nat>, seen: set<nat>, a: nat) {
    exists trail :: Trail(g, roots, seen, trail) && trail[|trail| - 1] == a
  }

  /** The nodes reachable from the roots past the seen ones. */
  ghost function Reach(g: Graph, roots: set<nat>, seen: set<nat>): (r: set<nat>)
    ensures r <= g.Keys
  {
    assert IsReach(g, roots, seen, set a | a in g && Reachable(g, roots, seen, a));
    var r :| IsReach(g, roots, seen, r);
    r
  }

  // The trigger keeps membership in a reach from being unfolded where only the reach itself matters.
  ghost predicate IsReach(g: Graph, roots: set<nat>, seen: set<nat>, r: set<nat>) {
    r <= g.Keys
    && forall a {:trigger Reachable(g, roots, seen, a)} ::
         a in r <==> a in g && Reachable(g, roots, seen, a)
  }

  lemma InReach(g: Graph, roots: set<nat>, seen: set<nat>, a: nat)
    ensures a in Reach(g, roots, seen) <==> a in g && Reachable(g, roots, seen, a)
  {
  }

  /**
   What a traversal from the roots leaves behind: it has seen the roots and all that the
   newly seen nodes lead to, and nothing it did not reach past those seen before.
   */
  ghost predicate Visited(g: Graph, roots: set<nat>, s0: set<nat>, s1: set<nat>) {
    && s0 <= s1 && roots <= s1 && s1 - s0 <= g.Keys
    && (forall a :: a in s1 - s0 ==> g[a] <= s1)
    && (forall a :: a in s1 - s0 ==> Reachable(g, roots, s0, a))
  }

  lemma VisitedIsReach(g: Graph, roots: set<nat>, s0: set<nat>, s1: set<nat>)
    requires Visited(g, roots, s0, s1)
    ensures s1 == s0 + Reach(g, roots, s0)
    ensures s1 - s0 == Reach(g, roots, s0)
  {
    forall a
      ensures a in Reach(g, roots, s0) <==> a in s1 - s0
    {
      InReach(g, roots, s0, a);
      if a in Reach(g, roots, s0) {
        ReachableVisited(g, roots, s0, s1, a);
      }
    }
  }

  lemma ReachableVisited(g: Graph, roots: set<nat>, s0: set<nat>, s1: set<nat>, a: nat)
    requires Visited(g, roots, s0, s1) && Reachable(g, roots, s0, a)
    ensures a in s1 - s0
  {
    var trail :| Trail(g, roots, s0, trail) && trail[|trail| - 1] == a;
    TrailVisited(g, roots, s0, s1, trail);
  }

  lemma {:induction false} TrailVisited(g: Graph, roots: set<nat>, s0: set<nat>, s1: set<nat>, trail: seq<nat>)
    requires Visited(g, roots, s0, s1) && Trail(g, roots, s0, trail)
    ensures trail[|trail| - 1] in s1 - s0
    decreases |trail|
  {
    var n := |trail| - 1;
    if n > 0 {
      assert Trail(g, roots, s0, trail[..n]);
      TrailVisited(g, roots, s0, s1, trail[..n]);
    }
  }

  lemma ReachableMono(g: Graph, d0: set<nat>, d1: set<nat>, s0: set<nat>, s1: set<nat>, a: nat)
    requires Reachable(g, d1, s1, a) && d1 <= d0 && s0 <= s1
    ensures Reachable(g, d0, s0, a)
  {
    var trail :| Trail(g, d1, s1, trail) && trail[|trail| - 1] == a;
    assert Trail(g, d0, s0, trail);
  }

  /** Conversely, what is reached is what a traversal visits. */
  lemma ReachVisits(g: Graph, roots: set<nat>, s: set<nat>)
    requires EdgesInside(g) && roots <= g.Keys
    ensures Visited(g, roots, s, s + Reach(g, roots, s))
  {
    var s1 := s + Reach(g, roots, s);
    forall a | a in roots
      ensures a in s1
    {
      InReach(g, roots, s, a);
      if a !in s {
        assert Trail(g, roots, s, [a]);
      }
    }
    forall a | a in s1 - s
      ensures Reachable(g, roots, s, a) && g[a] <= s1
    {
      InReach(g, roots, s, a);
      forall b | b in g[a]
        ensures b in s1
      {
        InReach(g, roots, s, b);
        if b !in s {
          ReachableOn(g, roots, s, a, b);
        }
      }
    }
  }

  lemma ReachableOn(g: Graph, roots: set<nat>, s: set<nat>, a: nat, b: nat)
    requires Reachable(g, roots, s, a) && a in g && b in g[a] && b in g && b !in s
    ensures Reachable(g, roots, s, b)
  {
    var trail :| Trail(g, roots, s, trail) && trail[|trail| - 1] == a;
    assert Trail(g, roots, s, trail + [b]);
  }

  /**
   Reaching on from d1, past what d0 reached first, reaches what both reach together; nothing
   is counted twice.
   */
  lemma ReachThen(g: Graph, d0: set<nat>, d1: set<nat>, s: set<nat>)
    requires EdgesInside(g) && d0 + d1 <= g.Keys
    ensures var r0 := Reach(g, d0, s);
            var r1 := Reach(g, d1, s + r0);
            Reach(g, d0 + d1, s) == r0 + r1 && r0 !! r1
  {
    var r0 := Reach(g, d0, s);
    var s1 := s + r0;
    var r1 := Reach(g, d1, s1);
    var s2 := s1 + r1;
    ReachVisits(g, d0, s);
    ReachVisits(g, d1, s1);
    forall a | a in s2 - s
      ensures g[a] <= s2 && Reachable(g, d0 + d1, s, a)
    {
      if a in s1 {
        assert a in s1 - s;
        ReachableMono(g, d0 + d1, d0, s, s, a);
      } else {
        assert a in s2 - s1;
        ReachableMono(g, d0 + d1, d1, s, s1, a);
      }
    }
    VisitedIsReach(g, d0 + d1, s, s2);
    ReachUnseen(g, d0, s);
    ReachUnseen(g, d1, s1);
    assert s2 - s == r0 + r1;
  }

  lemma ReachableViaNode(g: Graph, a: nat, s: set<nat>, b: nat)
    requires a in g && a !in s && Reachable(g, g[a], s + {a}, b)
    ensures Reachable(g, {a}, s, b)
  {
    var trail :| Trail(g, g[a], s + {a}, trail) && trail[|trail| - 1] == b;
    assert Trail(g, {a}, s, [a] + trail);
  }

  lemma VisitedNode(g: Graph, a: nat, s: set<nat>, s1: set<nat>)
    requires a in g && a !in s && Visited(g, g[a], s + {a}, s1)
    ensures Visited(g, {a}, s, s1)
  {
    forall b | b in s1 - s
      ensures Reachable(g, {a}, s, b) && g[b] <= s1
    {
      if b == a {
        assert Trail(g, {a}, s, [a]);
      } else {
        assert b in s1 - (s + {a});
        ReachableViaNode(g, a, s, b);
      }
    }
  }

  /** Going through one node not seen before. */
  lemma ReachNode(g: Graph, a: nat, s: set<nat>)
    requires EdgesInside(g) && a in g && a !in s
    ensures var r := Reach(g, g[a], s + {a});
            Reach(g, {a}, s) == {a} + r && a !in r
  {
    var r := Reach(g, g[a], s + {a});
    ReachVisits(g, g[a], s + {a});
    ReachUnseen(g, g[a], s + {a});
    VisitedNode(g, a, s, s + {a} + r);
    VisitedIsReach(g, {a}, s, s + {a} + r);
    assert s + {a} + r - s == {a} + r;
  }

  lemma ReachUnseen(g: Graph, roots: set<nat>, s: set<nat>)
    ensures Reach(g, roots, s) !! s
  {
    forall a | a in Reach(g, roots, s)
      ensures a !in s
    {
      InReach(g, roots, s, a);
    }
  }

  lemma ReachNothing(g: Graph, roots: set<nat>, s: set<nat>)
    requires roots <= s
    ensures Reach(g, roots, s) == {}
  {
    forall a
      ensures a !in Reach(g, roots, s)
    {
      InReach(g, roots, s, a);
    }
  }

  lemma ReachShrinks(g: Graph, roots: set<nat>, s: set<nat>, t: set<nat>)
    requires s <= t
    ensures Reach(g, roots, t) <= Reach(g, roots, s)
  {
    forall a | a in Reach(g, roots, t)
      ensures a in Reach(g, roots, s)
    {
      InReach(g, roots, t, a);
      ReachableMono(g, roots, roots, s, t, a);
      InReach(g, roots, s, a);
    }
  }

  lemma ReachUnion(g: Graph, d0: set<nat>, d1: set<nat>, s: set<nat>)
    ensures Reach(g, d0 + d1, s) == Reach(g, d0, s) + Reach(g, d1, s)
  {
    forall a
      ensures a in Reach(g, d0 + d1, s) <==> a in Reach(g, d0, s) + Reach(g, d1, s)
    {
      InReach(g, d0, s, a);
      InReach(g, d1, s, a);
      InReach(g, d0 + d1, s, a);
      if trail :| Trail(g, d0 + d1, s, trail) && trail[|trail| - 1] == a {
        assert Trail(g, if trail[0] in d0 then d0 else d1, s, trail);
      }
      if Reachable(g, d0, s, a) {
        ReachableMono(g, d0 + d1, d0, s, s, a);
      }
      if Reachable(g, d1, s, a) {
        ReachableMono(g, d0 + d1, d1, s, s, a);
      }
    }
  }

  /** With more edges, and from more roots, more is reached. */
  lemma ReachGrows(g: Graph, g': Graph, roots: set<nat>, roots': set<nat>, s: set<nat>)
    requires g.Keys <= g'.Keys && roots <= roots' && forall a :: a in g ==> g[a] <= g'[a]
    ensures Reach(g, roots, s) <= Reach(g', roots', s)
  {
    forall a | a in Reach(g, roots, s)
      ensures a in Reach(g', roots', s)
    {
      InReach(g, roots, s, a);
      InReach(g', roots', s, a);
      var trail :| Trail(g, roots, s, trail) && trail[|trail| - 1] == a;
      assert Trail(g', roots', s, trail);
    }
  }

  lemma ReachLeaf(g: Graph, a: nat)
    requires a in g && g[a] == {}
    ensures Reach(g, {a}, {}) == {a}
  {
    assert Trail(g, {a}, {}, [a]);
    VisitedIsReach(g, {a}, {}, {a});
  }
}
