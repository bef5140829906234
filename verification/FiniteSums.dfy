/** Sums of weights over finite sets of numbers. */
module FiniteSums {

  ghost function Sum(w: map<nat, nat>, s: set<nat>): nat
    requires s <= w.Keys
  {
    if s == {} then 0 else
      var x :| x in s;
      w[x] + Sum(w, s - {x})
  }

  lemma {:induction false} SumRemove(w: map<nat, nat>, s: set<nat>, x: nat)
    requires s <= w.Keys && x in s
    ensures Sum(w, s) == w[x] + Sum(w, s - {x})
    decreases s
  {
    var y :| y in s && Sum(w, s) == w[y] + Sum(w, s - {y});
    if y != x {
      SumRemove(w, s - {y}, x);
      SumRemove(w, s - {x}, y);
      assert s - {y} - {x} == s - {x} - {y};
    }
  }

  lemma SumAdd(w: map<nat, nat>, s: set<nat>, x: nat)
    requires s + {x} <= w.Keys && x !in s
    ensures Sum(w, s + {x}) == Sum(w, s) + w[x]
  {
    SumRemove(w, s + {x}, x);
    assert s + {x} - {x} == s;
  }

  lemma {:induction false} SumUnion(w: map<nat, nat>, s: set<nat>, t: set<nat>)
    requires s + t <= w.Keys && s !! t
    ensures Sum(w, s + t) == Sum(w, s) + Sum(w, t)
    decreases t
  {
    if t == {} {
      assert s + t == s;
    } else {
      var x :| x in t;
      SumUnion(w, s, t - {x});
      SumRemove(w, t, x);
      SumRemove(w, s + t, x);
      assert s + t - {x} == s + (t - {x});
    }
  }

  lemma SumSubset(w: map<nat, nat>, s: set<nat>, t: set<nat>)
    requires s <= t <= w.Keys
    ensures Sum(w, s) <= Sum(w, t)
  {
    SumUnion(w, s, t - s);
    assert s + (t - s) == t;
  }

  lemma {:induction false} SumConstant(w: map<nat, nat>, s: set<nat>, c: nat)
    requires s <= w.Keys && forall x :: x in s ==> w[x] == c
    ensures Sum(w, s) == |s| * c
    decreases s
  {
    if s != {} {
      var x :| x in s;
      SumRemove(w, s, x);
      SumConstant(w, s - {x}, c);
    }
  }

  lemma {:induction false} SumZeroIff(w: map<nat, nat>, s: set<nat>)
    requires s <= w.Keys
    ensures Sum(w, s) == 0 <==> forall x :: x in s ==> w[x] == 0
    decreases s
  {
    if s != {} {
      var x :| x in s;
      SumRemove(w, s, x);
      SumZeroIff(w, s - {x});
    }
  }

  /** Sums are equal up to what makes them equal term by term. */
  lemma {:induction false} SumBalance(w: map<nat, nat>, less: map<nat, nat>, w': map<nat, nat>, more: map<nat, nat>,
                                      s: set<nat>)
    requires s <= w.Keys && s <= less.Keys && s <= w'.Keys && s <= more.Keys
    requires forall x :: x in s ==> w[x] + less[x] == w'[x] + more[x]
    ensures Sum(w, s) + Sum(less, s) == Sum(w', s) + Sum(more, s)
    decreases s
  {
    if s != {} {
      var x :| x in s;
      SumRemove(w, s, x);
      SumRemove(less, s, x);
      SumRemove(w', s, x);
      SumRemove(more, s, x);
      SumBalance(w, less, w', more, s - {x});
    }
  }
}
