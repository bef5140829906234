/**
 The memoising loader: one cache for all modules, a placeholder for a module whose
 execution is under way, and an error for a request that meets a placeholder.
 */
module Loader {
  import opened Wrappers
  import opened LoadGraph

  ghost predicate Distinct(s: seq<string>) {
    forall i, j :: 0 <= i < j < |s| ==> s[i] != s[j]
  }

  /** Every load target of a listed module is listed before it. */
  ghost predicate Topological(p: Program, order: seq<string>) {
    forall i, d :: 0 <= i < |order| && Edge(p, order[i], d) ==> d in order[..i]
  }

  lemma TopologicalAppend(p: Program, order: seq<string>, m: string)
    requires Topological(p, order) && forall d :: Edge(p, m, d) ==> d in order
    ensures Topological(p, order + [m])
  {
    var longer := order + [m];
    forall i, d | 0 <= i < |longer| && Edge(p, longer[i], d)
      ensures d in longer[..i]
    {
      if i < |order| {
        assert longer[..i] == order[..i];
      } else {
        assert longer[..i] == order;
      }
    }
  }

  class Loader {
    const program: Program
    // A key mapped to None is the "load in progress" placeholder.
    var cache: map<string, Option<Outcome>>
    // The modules executed, and those that finished without error, in order.
    ghost var executed: seq<string>
    ghost var finished: seq<string>

    /** What the cache and the logs say of one module, when the modules of stack are in progress. */
    ghost predicate Consistent(stack: seq<string>, m: string)
      reads this
    {
      && (m in stack <==> m in cache && cache[m].None?)
      && (m in cache && cache[m].Some? ==> cache[m].value == Verdict(program, m))
      && (m in executed <==> m in cache)
      && (m in finished <==> m in cache && cache[m].Some? && cache[m].value.Ok?)
    }

    /**
     Holds at every call and return of Load, at any depth; stack lists the modules in
     progress, each waiting for the next.
     */
    ghost predicate Valid(stack: seq<string>)
      reads this
    {
      && Distinct(stack) && Chain(program, stack)
      && Distinct(executed) && Distinct(finished) && Topological(program, finished)
      && forall m :: Consistent(stack, m)
    }

    /** Entries and logs only grow. */
    twostate predicate Extended()
      reads this
    {
      && old(cache).Keys <= cache.Keys
      && (forall m :: m in old(cache) && old(cache)[m].Some? ==> m in cache && cache[m] == old(cache)[m])
      && old(executed) <= executed && old(finished) <= finished
    }

    /** Only modules that load statements lead to from this one have come in. */
    twostate predicate NewFrom(name: string)
      reads this
    {
      forall m :: m in cache && m !in old(cache) ==> Reaches(program, name, m)
    }

    constructor (program: Program)
      ensures this.program == program && cache == map[] && Valid([])
      ensures executed == [] && finished == []
    {
      this.program := program;
      cache := map[];
      executed, finished := [], [];
    }

    /**
     Whatever the cache holds and whoever is waiting, the answer is the module's verdict;
     every placeholder met on the way is gone again on return.
     */
    method Load(name: string, ghost stack: seq<string>) returns (r: Outcome)
      requires Valid(stack)
      requires stack != [] ==> Demands(program, stack[|stack| - 1], name)
      modifies this
      ensures Valid(stack) && Extended() && NewFrom(name) && name in cache
      ensures r == Verdict(program, name)
      ensures if name in stack then r == Err(Cycle) else cache[name] == Some(r)
      decreases program.loads.Keys - cache.Keys, 1
    {
      assert Consistent(stack, name);
      if name in cache && cache[name].Some? {
        return cache[name].value;
      }
      if name in cache {
        ReenteredVerdict(program, stack, name);
        return Err(Cycle);
      }
      ghost var deeper := stack + [name];
      ReachesItself(program, name);
      Begin(name, stack);
      assert cache.Keys == old(cache).Keys + {name};
      if name !in program.loads {
        assert program.loads.Keys - cache.Keys == program.loads.Keys - old(cache).Keys;
      }
      r := ExecFile(name, deeper);
      assert name in deeper && Consistent(deeper, name);
      Finish(name, r, stack);
      assert Consistent(stack, name);
    }

    /** Adds the "load in progress" placeholder. */
    method Begin(name: string, ghost stack: seq<string>)
      requires Valid(stack) && name !in cache
      requires stack != [] ==> Demands(program, stack[|stack| - 1], name)
      modifies this
      ensures Valid(stack + [name])
      ensures cache == old(cache)[name := None]
      ensures executed == old(executed) + [name] && finished == old(finished)
    {
      cache := cache[name := None];
      executed := executed + [name];
      ghost var deeper := stack + [name];
      forall m: string
        ensures Consistent(deeper, m)
      {
        assert old(Consistent(stack, m));
        assert m in deeper <==> m in stack || m == name;
      }
      assert old(Consistent(stack, name));
    }

    /** Replaces the placeholder by the entry. */
    method Finish(name: string, r: Outcome, ghost stack: seq<string>)
      requires Valid(stack + [name]) && r == Verdict(program, name)
      requires r.Ok? ==> forall d :: Edge(program, name, d) ==> d in finished
      modifies this
      ensures Valid(stack)
      ensures cache == old(cache)[name := Some(r)]
      ensures executed == old(executed)
      ensures finished == if r.Ok? then old(finished) + [name] else old(finished)
    {
      ghost var deeper := stack + [name];
      assert deeper[|stack|] == name && name in deeper && Consistent(deeper, name);
      assert Chain(program, stack) && Distinct(stack) && name !in stack by {
        assert forall i :: 0 <= i < |stack| ==> deeper[i] == stack[i];
      }
      if r.Ok? {
        TopologicalAppend(program, finished, name);
        finished := finished + [name];
      }
      cache := cache[name := Some(r)];
      forall m: string
        ensures Consistent(stack, m)
      {
        assert old(Consistent(deeper, m));
        assert m in deeper <==> m in stack || m == name;
      }
    }

    /** Executes a file: its load statements in order, then the rest of its code. */
    method ExecFile(name: string, ghost stack: seq<string>) returns (r: Outcome)
      requires Valid(stack) && stack != [] && stack[|stack| - 1] == name
      modifies this
      ensures Valid(stack) && Extended() && NewFrom(name)
      ensures r == Verdict(program, name)
      ensures r.Ok? ==> forall d :: Edge(program, name, d) ==> d in finished
      decreases program.loads.Keys - cache.Keys, if name in program.loads then 2 else 0
    {
      if name !in program.loads {
        FailedVerdict(program, name, []);
        return Err(Failed(name));
      }
      var targets := program.loads[name];
      var gs: seq<Globals> := [];
      while |gs| < |targets|
        invariant |gs| <= |targets|
        invariant Valid(stack) && Extended() && NewFrom(name)
        invariant Progress(program, name, gs)
        invariant forall d :: d in targets[..|gs|] ==> d in finished
      {
        if program.run(name, gs).None? {
          FailedVerdict(program, name, gs);
          return Err(Failed(name));
        }
        NextLoadIsDemanded(program, name, gs);
        var target := targets[|gs|];
        ghost var before, known := finished, cache;
        var d := Load(target, stack);
        forall m | m in cache && m !in known
          ensures Reaches(program, name, m)
        {
          ReachesStep(program, name, target, m);
        }
        assert before == finished[..|before|];
        assert targets[..|gs| + 1] == targets[..|gs|] + [target];
        assert Consistent(stack, target);
        if d.Err? {
          ErrorPropagates(program, name, gs);
          return d;
        }
        ProgressStep(program, name, gs, d.globals);
        gs := gs + [d.globals];
      }
      if program.run(name, gs).None? {
        FailedVerdict(program, name, gs);
        return Err(Failed(name));
      }
      FinishedVerdict(program, name, gs);
      return Ok(program.run(name, gs).value);
    }
  }

  lemma ReachesItself(p: Program, m: string)
    ensures Reaches(p, m, m)
  {
    assert PathFromTo(p, [m], m, m);
  }

  /** A list that has its load targets before each module has all that any of its modules reaches. */
  lemma TopologicalHolds(p: Program, order: seq<string>, m: string, x: string)
    requires Topological(p, order) && m in order && Reaches(p, m, x)
    ensures x in order
  {
    var path :| PathFromTo(p, path, m, x);
    PathHolds(p, order, path);
  }

  lemma {:induction false} PathHolds(p: Program, order: seq<string>, path: seq<string>)
    requires Topological(p, order) && Path(p, path) && path[0] in order
    ensures path[|path| - 1] in order
    decreases |path|
  {
    var n := |path| - 1;
    if n > 0 {
      PathHolds(p, order, path[..n]);
      var i :| 0 <= i < |order| && order[i] == path[n - 1];
      assert Edge(p, order[i], path[n]);
    }
  }

  /**
   One run from an empty cache: the entries left behind are the verdicts of their modules,
   with no placeholder among them, and order lists the successful ones dependencies first.
   Each module entered was executed once and is one that the root reaches; after a success
   they are all that it reaches.
   */
  method LoadRoot(program: Program, root: string)
    returns (r: Outcome, entries: map<string, Option<Outcome>>,
             ghost order: seq<string>, ghost executed: seq<string>)
    ensures r == Verdict(program, root) && root in entries && entries[root] == Some(r)
    ensures forall m :: m in entries ==> entries[m] == Some(Verdict(program, m))
    ensures Distinct(order) && Topological(program, order)
    ensures forall m :: m in order <==> m in entries && Verdict(program, m).Ok?
    ensures Distinct(executed) && forall m :: m in executed <==> m in entries
    ensures forall m :: m in entries ==> Reaches(program, root, m)
    ensures r.Ok? ==> forall m :: Reaches(program, root, m) ==> m in order
  {
    var loader := new Loader(program);
    r := loader.Load(root, []);
    entries, order, executed := loader.cache, loader.finished, loader.executed;
    forall m: string
      ensures m in entries ==> entries[m] == Some(Verdict(program, m))
      ensures m in order <==> m in entries && Verdict(program, m).Ok?
      ensures m in executed <==> m in entries
    {
      assert loader.Consistent([], m);
    }
    if r.Ok? {
      forall m | Reaches(program, root, m)
        ensures m in order
      {
        TopologicalHolds(program, order, root, m);
      }
    }
  }
}
