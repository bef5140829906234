/**
 Starlark programs as the loader sees them, and what loading a module means when
 there is neither a cache nor a cycle check: plain recursion, which may not end.
 */
module LoadGraph {
  import opened Wrappers

  type Globals = map<string, string>

  /** The root cause of a failed load. */
  datatype Cause = Cycle | Failed(module_: string)

  datatype Outcome = Ok(globals: Globals) | Err(cause: Cause)

  /**
   loads[m] lists the load targets of file m in the order of their statements; a name
   outside loads has no file. run(m, gs) executes file m given the globals of its first
   |gs| loads, up to its next load statement or, if there is none, to its end; None is a
   failure of the file's own code.
   */
  datatype Program = Program(loads: map<string, seq<string>>,
                             run: (string, seq<Globals>) -> Option<Globals>)

  // ---------- Naive evaluation ----------

  /** Loads m by plain recursion of depth at most fuel; None when that is not enough. */
  function Naive(p: Program, m: string, fuel: nat): Option<Outcome>
    decreases fuel, 1, 0
  {
    if fuel == 0 then None else NaiveFrom(p, m, [], fuel)
  }

  /** Resumes file m after its first |gs| loads have produced gs. */
  function NaiveFrom(p: Program, m: string, gs: seq<Globals>, fuel: nat): Option<Outcome>
    requires fuel > 0
    decreases fuel, 0, if m in p.loads then |p.loads[m]| - |gs| else 0
  {
    if m !in p.loads then Some(Err(Failed(m)))
    else
      match p.run(m, gs)
      case None => Some(Err(Failed(m)))
      case Some(g) =>
        if |gs| >= |p.loads[m]| then Some(Ok(g))
        else
          match Naive(p, p.loads[m][|gs|], fuel - 1)
          case None => None
          case Some(Err(c)) => Some(Err(c))
          case Some(Ok(d)) => NaiveFrom(p, m, gs + [d], fuel)
  }

  lemma {:induction false} NaiveMonotone(p: Program, m: string, n: nat, k: nat)
    requires n <= k && Naive(p, m, n).Some?
    ensures Naive(p, m, k) == Naive(p, m, n)
    decreases n, 1, 0
  {
    NaiveFromMonotone(p, m, [], n, k);
  }

  lemma {:induction false} NaiveFromMonotone(p: Program, m: string, gs: seq<Globals>, n: nat, k: nat)
    requires 0 < n <= k && NaiveFrom(p, m, gs, n).Some?
    ensures NaiveFrom(p, m, gs, k) == NaiveFrom(p, m, gs, n)
    decreases n, 0, if m in p.loads then |p.loads[m]| - |gs| else 0
  {
    if m in p.loads && p.run(m, gs).Some? && |gs| < |p.loads[m]| {
      var dep := p.loads[m][|gs|];
      NaiveMonotone(p, dep, n - 1, k - 1);
      if Naive(p, dep, n - 1).value.Ok? {
        NaiveFromMonotone(p, m, gs + [Naive(p, dep, n - 1).value.globals], n, k);
      }
    }
  }

  ghost predicate Terminates(p: Program, m: string) {
    exists n: nat :: Naive(p, m, n).Some?
  }

  /** What naive evaluation yields if it ends; a cycle is what makes it run forever. */
  ghost function Verdict(p: Program, m: string): Outcome {
    if Terminates(p, m) then
      var n: nat :| Naive(p, m, n).Some?; Naive(p, m, n).value
    else Err(Cycle)
  }

  lemma VerdictIs(p: Program, m: string, n: nat)
    requires Naive(p, m, n).Some?
    ensures Verdict(p, m) == Naive(p, m, n).value
  {
    var k: nat :| Naive(p, m, k).Some? && Verdict(p, m) == Naive(p, m, k).value;
    if n <= k {
      NaiveMonotone(p, m, n, k);
    } else {
      NaiveMonotone(p, m, k, n);
    }
  }

  lemma {:induction false} NaiveNeverCycle(p: Program, m: string, n: nat)
    ensures Naive(p, m, n) != Some(Err(Cycle))
    decreases n, 1, 0
  {
    if n > 0 {
      NaiveFromNeverCycle(p, m, [], n);
    }
  }

  lemma {:induction false} NaiveFromNeverCycle(p: Program, m: string, gs: seq<Globals>, n: nat)
    requires n > 0
    ensures NaiveFrom(p, m, gs, n) != Some(Err(Cycle))
    decreases n, 0, if m in p.loads then |p.loads[m]| - |gs| else 0
  {
    if m in p.loads && p.run(m, gs).Some? && |gs| < |p.loads[m]| {
      var dep := p.loads[m][|gs|];
      NaiveNeverCycle(p, dep, n - 1);
      if Naive(p, dep, n - 1).Some? && Naive(p, dep, n - 1).value.Ok? {
        NaiveFromNeverCycle(p, m, gs + [Naive(p, dep, n - 1).value.globals], n);
      }
    }
  }

  /** The verdict is "cycle" exactly when the uncached recursion never ends. */
  lemma CycleIffDiverges(p: Program, m: string)
    ensures Verdict(p, m) == Err(Cycle) <==> forall n: nat :: Naive(p, m, n).None?
  {
    if n: nat :| Naive(p, m, n).Some? {
      VerdictIs(p, m, n);
      NaiveNeverCycle(p, m, n);
    }
  }

  // ---------- A file part way through its loads ----------

  /** The first |gs| loads of m gave gs, and the code of m before each of them ran. */
  ghost predicate Progress(p: Program, m: string, gs: seq<Globals>) {
    && m in p.loads
    && |gs| <= |p.loads[m]|
    && forall j :: 0 <= j < |gs| ==> Loaded(p, m, gs, j)
  }

  ghost predicate Loaded(p: Program, m: string, gs: seq<Globals>, j: nat)
    requires m in p.loads && j < |gs| <= |p.loads[m]|
  {
    Verdict(p, p.loads[m][j]) == Ok(gs[j]) && p.run(m, gs[..j]).Some?
  }

  lemma ProgressStep(p: Program, m: string, gs: seq<Globals>, d: Globals)
    requires Progress(p, m, gs) && |gs| < |p.loads[m]|
    requires p.run(m, gs).Some? && Verdict(p, p.loads[m][|gs|]) == Ok(d)
    ensures Progress(p, m, gs + [d])
  {
    var hs := gs + [d];
    assert hs[..|gs|] == gs;
    forall j | 0 <= j < |hs|
      ensures Loaded(p, m, hs, j)
    {
      if j < |gs| {
        assert Loaded(p, m, gs, j);
        assert hs[..j] == gs[..j];
      }
    }
  }

  lemma ProgressPrefix(p: Program, m: string, gs: seq<Globals>)
    requires Progress(p, m, gs) && gs != []
    ensures Progress(p, m, gs[..|gs| - 1])
    ensures Loaded(p, m, gs, |gs| - 1)
  {
    var hs := gs[..|gs| - 1];
    forall j | 0 <= j < |hs|
      ensures Loaded(p, m, hs, j)
    {
      assert Loaded(p, m, gs, j);
      assert hs[..j] == gs[..j];
    }
  }

  /** Where naive evaluation of m ends, so does its continuation after gs, with the same outcome. */
  lemma {:induction false} NaiveContinues(p: Program, m: string, gs: seq<Globals>, n: nat)
    requires Progress(p, m, gs) && Naive(p, m, n).Some?
    ensures n > 0 && NaiveFrom(p, m, gs, n) == Naive(p, m, n)
    decreases |gs|
  {
    if gs != [] {
      var hs := gs[..|gs| - 1];
      ProgressPrefix(p, m, gs);
      NaiveContinues(p, m, hs, n);
      assert gs == hs + [gs[|hs|]];
      VerdictIs(p, p.loads[m][|hs|], n - 1);
    }
  }

  /** Conversely, from some depth on, naive evaluation of m gets past the loads that gave gs. */
  lemma {:induction false} NaiveArrives(p: Program, m: string, gs: seq<Globals>) returns (n: nat)
    requires Progress(p, m, gs)
    ensures n > 0
    ensures forall k :: k >= n ==> Naive(p, m, k) == NaiveFrom(p, m, gs, k)
    decreases |gs|
  {
    if gs == [] {
      n := 1;
    } else {
      var hs := gs[..|gs| - 1];
      ProgressPrefix(p, m, gs);
      var a := NaiveArrives(p, m, hs);
      assert gs == hs + [gs[|hs|]];
      var dep := p.loads[m][|hs|];
      CycleIffDiverges(p, dep);
      var b: nat :| Naive(p, dep, b).Some?;
      VerdictIs(p, dep, b);
      n := if a > b + 1 then a else b + 1;
      forall k | k >= n
        ensures Naive(p, m, k) == NaiveFrom(p, m, gs, k)
      {
        NaiveMonotone(p, dep, b, k - 1);
      }
    }
  }

  // ---------- The verdict of a file from where it stands ----------

  lemma FailedVerdict(p: Program, m: string, gs: seq<Globals>)
    requires m !in p.loads || (Progress(p, m, gs) && p.run(m, gs).None?)
    ensures Verdict(p, m) == Err(Failed(m))
  {
    if m !in p.loads {
      VerdictIs(p, m, 1);
    } else {
      var n := NaiveArrives(p, m, gs);
      VerdictIs(p, m, n);
    }
  }

  lemma FinishedVerdict(p: Program, m: string, gs: seq<Globals>)
    requires Progress(p, m, gs) && |gs| == |p.loads[m]| && p.run(m, gs).Some?
    ensures Verdict(p, m) == Ok(p.run(m, gs).value)
  {
    var n := NaiveArrives(p, m, gs);
    VerdictIs(p, m, n);
  }

  /**
   Success, unfolded once and with no cache: all loads succeed and the file runs to its end
   on the globals they give.
   */
  lemma OkUnfolds(p: Program, m: string, g: Globals)
    ensures Verdict(p, m) == Ok(g) <==>
            exists gs :: Progress(p, m, gs) && |gs| == |p.loads[m]| && p.run(m, gs) == Some(g)
  {
    if gs :| Progress(p, m, gs) && |gs| == |p.loads[m]| && p.run(m, gs) == Some(g) {
      FinishedVerdict(p, m, gs);
    }
    if Verdict(p, m) == Ok(g) {
      var gs := LoadedGlobals(p, m, []);
    }
  }

  lemma {:induction false} LoadedGlobals(p: Program, m: string, gs: seq<Globals>) returns (all: seq<Globals>)
    requires Verdict(p, m).Ok?
    requires m in p.loads ==> Progress(p, m, gs)
    ensures Progress(p, m, all) && |all| == |p.loads[m]|
    ensures p.run(m, all) == Some(Verdict(p, m).globals)
    decreases if m in p.loads then |p.loads[m]| - |gs| else 0
  {
    if m !in p.loads || p.run(m, gs).None? {
      FailedVerdict(p, m, gs);
    } else if |gs| == |p.loads[m]| {
      FinishedVerdict(p, m, gs);
      all := gs;
    } else {
      var dep := Verdict(p, p.loads[m][|gs|]);
      if dep.Err? {
        ErrorPropagates(p, m, gs);
      } else {
        ProgressStep(p, m, gs, dep.globals);
        all := LoadedGlobals(p, m, gs + [dep.globals]);
      }
    }
  }

  /** The first load that fails decides the verdict of the file. */
  lemma ErrorPropagates(p: Program, m: string, gs: seq<Globals>)
    requires Progress(p, m, gs) && |gs| < |p.loads[m]| && p.run(m, gs).Some?
    requires Verdict(p, p.loads[m][|gs|]).Err?
    ensures Verdict(p, m) == Verdict(p, p.loads[m][|gs|])
  {
    var dep := p.loads[m][|gs|];
    if Terminates(p, dep) {
      var b: nat :| Naive(p, dep, b).Some?;
      VerdictIs(p, dep, b);
      var a := NaiveArrives(p, m, gs);
      var n := if a > b + 1 then a else b + 1;
      NaiveMonotone(p, dep, b, n - 1);
      VerdictIs(p, m, n);
    } else if n: nat :| Naive(p, m, n).Some? {
      NaiveContinues(p, m, gs, n);
      assert false;
    }
  }

  // ---------- Waiting for another module ----------

  /** Evaluating a to the end takes evaluating b to the end, in strictly less depth. */
  ghost predicate Demands(p: Program, a: string, b: string) {
    forall n: nat :: Naive(p, a, n).Some? ==> n > 0 && Naive(p, b, n - 1).Some?
  }

  lemma NextLoadIsDemanded(p: Program, m: string, gs: seq<Globals>)
    requires Progress(p, m, gs) && |gs| < |p.loads[m]| && p.run(m, gs).Some?
    ensures Demands(p, m, p.loads[m][|gs|])
  {
    forall n: nat | Naive(p, m, n).Some?
      ensures n > 0 && Naive(p, p.loads[m][|gs|], n - 1).Some?
    {
      NaiveContinues(p, m, gs, n);
    }
  }

  ghost predicate Chain(p: Program, stack: seq<string>) {
    forall i :: 0 < i < |stack| ==> Demands(p, stack[i - 1], stack[i])
  }

  lemma {:induction false} ChainDescends(p: Program, stack: seq<string>, i: nat, n: nat)
    requires Chain(p, stack) && i < |stack| && Naive(p, stack[i], n).Some?
    ensures |stack| - 1 - i <= n
    ensures Naive(p, stack[|stack| - 1], n - (|stack| - 1 - i)).Some?
    decreases |stack| - i
  {
    if i + 1 < |stack| {
      assert Demands(p, stack[i], stack[i + 1]);
      ChainDescends(p, stack, i + 1, n - 1);
    }
  }

  /** A chain of demands that comes back to where it started can never be met. */
  lemma {:induction false} ClosedChainDiverges(p: Program, stack: seq<string>, i: nat, n: nat)
    requires Chain(p, stack) && i < |stack| - 1 && stack[i] == stack[|stack| - 1]
    ensures Naive(p, stack[i], n).None?
    decreases n
  {
    if Naive(p, stack[i], n).Some? {
      ChainDescends(p, stack, i, n);
      ClosedChainDiverges(p, stack, i, n - (|stack| - 1 - i));
    }
  }

  lemma ReenteredVerdict(p: Program, stack: seq<string>, m: string)
    requires stack != [] && Chain(p, stack) && m in stack
    requires Demands(p, stack[|stack| - 1], m)
    ensures Verdict(p, m) == Err(Cycle)
  {
    var loop := stack + [m];
    assert Chain(p, loop);
    var i :| 0 <= i < |stack| && stack[i] == m;
    forall n: nat
      ensures Naive(p, m, n).None?
    {
      ClosedChainDiverges(p, loop, i, n);
    }
  }

  // ---------- The load graph ----------

  predicate Edge(p: Program, a: string, b: string) {
    a in p.loads && b in p.loads[a]
  }

  ghost predicate Path(p: Program, path: seq<string>) {
    path != [] && forall i :: 0 < i < |path| ==> Edge(p, path[i - 1], path[i])
  }

  ghost predicate PathFromTo(p: Program, path: seq<string>, a: string, b: string) {
    Path(p, path) && path[0] == a && path[|path| - 1] == b
  }

  ghost predicate Reaches(p: Program, a: string, b: string) {
    exists path :: PathFromTo(p, path, a, b)
  }

  ghost predicate OnCycle(p: Program, a: string) {
    exists path :: PathFromTo(p, path, a, a) && |path| > 1
  }

  /** The file is missing, or its own code fails although every load before that point succeeds. */
  ghost predicate FailsItself(p: Program, m: string) {
    m !in p.loads || exists gs :: Progress(p, m, gs) && p.run(m, gs).None?
  }

  function Names(s: seq<string>): set<string> {
    set x | x in s
  }

  lemma ReachesStep(p: Program, a: string, b: string, c: string)
    requires Edge(p, a, b) && Reaches(p, b, c)
    ensures Reaches(p, a, c)
  {
    var path :| PathFromTo(p, path, b, c);
    assert PathFromTo(p, [a] + path, a, c);
  }

  /** Naive success with depth n means success of every load with depth n - 1. */
  lemma {:induction false} OkLoadsOk(p: Program, m: string, gs: seq<Globals>, n: nat, dep: string)
    requires n > 0 && NaiveFrom(p, m, gs, n).Some? && NaiveFrom(p, m, gs, n).value.Ok?
    requires m in p.loads && |gs| <= |p.loads[m]| && dep in p.loads[m][|gs|..]
    ensures Naive(p, dep, n - 1).Some? && Naive(p, dep, n - 1).value.Ok?
    decreases |p.loads[m]| - |gs|
  {
    var next := p.loads[m][|gs|];
    if dep != next {
      assert dep in p.loads[m][|gs| + 1..];
      OkLoadsOk(p, m, gs + [Naive(p, next, n - 1).value.globals], n, dep);
    }
  }

  lemma {:induction false} OkPathOk(p: Program, path: seq<string>, n: nat)
    requires Path(p, path)
    requires Naive(p, path[0], n).Some? && Naive(p, path[0], n).value.Ok?
    ensures |path| - 1 < n
    ensures var k := n - (|path| - 1);
            Naive(p, path[|path| - 1], k).Some? && Naive(p, path[|path| - 1], k).value.Ok?
    decreases |path|
  {
    if |path| > 1 {
      assert Edge(p, path[0], path[1]);
      OkLoadsOk(p, path[0], [], n, path[1]);
      assert Path(p, path[1..]);
      OkPathOk(p, path[1..], n - 1);
    }
  }

  /** Success reaches everywhere along the load statements, and never around a cycle. */
  lemma {:induction false} CycleNotOk(p: Program, m: string, n: nat)
    requires OnCycle(p, m)
    ensures !(Naive(p, m, n).Some? && Naive(p, m, n).value.Ok?)
    decreases n
  {
    if Naive(p, m, n).Some? && Naive(p, m, n).value.Ok? {
      var path :| PathFromTo(p, path, m, m) && |path| > 1;
      OkPathOk(p, path, n);
      CycleNotOk(p, m, n - (|path| - 1));
    }
  }

  /** A failed execution is found where the load statements lead. */
  lemma {:induction false} FailureHasSource(p: Program, m: string, gs: seq<Globals>, n: nat)
    requires n > 0 && NaiveFrom(p, m, gs, n).Some? && NaiveFrom(p, m, gs, n).value.Err?
    requires m in p.loads ==> Progress(p, m, gs)
    ensures NaiveFrom(p, m, gs, n).value.cause.Failed?
    ensures Reaches(p, m, NaiveFrom(p, m, gs, n).value.cause.module_)
    ensures FailsItself(p, NaiveFrom(p, m, gs, n).value.cause.module_)
    decreases n, if m in p.loads then |p.loads[m]| - |gs| else 0
  {
    if m !in p.loads || p.run(m, gs).None? {
      assert PathFromTo(p, [m], m, m);
    } else {
      var dep := p.loads[m][|gs|];
      VerdictIs(p, dep, n - 1);
      var r := Naive(p, dep, n - 1).value;
      if r.Ok? {
        ProgressStep(p, m, gs, r.globals);
        FailureHasSource(p, m, gs + [r.globals], n);
      } else {
        FailureHasSource(p, dep, [], n - 1);
        ReachesStep(p, m, dep, r.cause.module_);
      }
    }
  }

  /** A module that never finishes loads, directly, another one that never finishes. */
  lemma {:induction false} DivergingLoad(p: Program, m: string, gs: seq<Globals>) returns (dep: string)
    requires !Terminates(p, m)
    requires m in p.loads ==> Progress(p, m, gs)
    ensures Edge(p, m, dep) && !Terminates(p, dep)
    decreases if m in p.loads then |p.loads[m]| - |gs| else 0
  {
    if m !in p.loads {
      VerdictIs(p, m, 1);
      assert false;
    } else {
      var n := NaiveArrives(p, m, gs);
      assert Naive(p, m, n).None?;
      dep := p.loads[m][|gs|];
      if b: nat :| Naive(p, dep, b).Some? {
        VerdictIs(p, dep, b);
        var k := if n > b + 1 then n else b + 1;
        NaiveMonotone(p, dep, b, k - 1);
        assert Naive(p, m, k) == NaiveFrom(p, m, gs, k);
        ProgressStep(p, m, gs, Naive(p, dep, b).value.globals);
        dep := DivergingLoad(p, m, gs + [Naive(p, dep, b).value.globals]);
      }
    }
  }

  /** Following such loads in a finite program comes back to a module already passed. */
  lemma {:induction false} DivergenceReachesCycle(p: Program, path: seq<string>) returns (x: string)
    requires Path(p, path)
    requires forall i :: 0 <= i < |path| ==> !Terminates(p, path[i])
    requires forall i, j :: 0 <= i < j < |path| ==> path[i] != path[j]
    ensures Reaches(p, path[0], x) && OnCycle(p, x)
    decreases p.loads.Keys - Names(path[..|path| - 1])
  {
    var last := path[|path| - 1];
    var dep := DivergingLoad(p, last, []);
    var longer := path + [dep];
    assert Path(p, longer);
    if i :| 0 <= i < |path| && path[i] == dep {
      x := dep;
      assert PathFromTo(p, path[..i + 1], path[0], dep);
      assert PathFromTo(p, longer[i..], dep, dep);
    } else {
      assert longer[..|path|] == path;
      assert last in p.loads.Keys - Names(path[..|path| - 1]);
      x := DivergenceReachesCycle(p, longer);
    }
  }

  /**
   A module's verdict is an error exactly when load statements lead from it to a cycle or
   to a file whose own execution fails.
   */
  lemma ErrorIffReachesCause(p: Program, m: string)
    ensures Verdict(p, m).Err? <==>
            exists x :: Reaches(p, m, x) && (OnCycle(p, x) || FailsItself(p, x))
  {
    if Verdict(p, m).Err? {
      var x := ErrorHasCause(p, m);
    }
    if x :| Reaches(p, m, x) && (OnCycle(p, x) || FailsItself(p, x)) {
      CauseMakesError(p, m, x);
    }
  }

  /** Which of the two it is, is the cause the verdict names. */
  lemma ErrorHasCause(p: Program, m: string) returns (x: string)
    requires Verdict(p, m).Err?
    ensures Reaches(p, m, x)
    ensures Verdict(p, m) == Err(Cycle) ==> OnCycle(p, x)
    ensures Verdict(p, m) != Err(Cycle) ==> Verdict(p, m) == Err(Failed(x)) && FailsItself(p, x)
  {
    if Terminates(p, m) {
      var n: nat :| Naive(p, m, n).Some?;
      VerdictIs(p, m, n);
      FailureHasSource(p, m, [], n);
      x := Verdict(p, m).cause.module_;
    } else {
      assert Path(p, [m]);
      x := DivergenceReachesCycle(p, [m]);
    }
  }

  lemma CauseMakesError(p: Program, m: string, x: string)
    requires Reaches(p, m, x) && (OnCycle(p, x) || FailsItself(p, x))
    ensures Verdict(p, m).Err?
  {
    if Verdict(p, m).Ok? {
      var n: nat :| Naive(p, m, n).Some?;
      VerdictIs(p, m, n);
      var path :| PathFromTo(p, path, m, x);
      OkPathOk(p, path, n);
      var k := n - (|path| - 1);
      if OnCycle(p, x) {
        CycleNotOk(p, x, k);
      } else {
        VerdictIs(p, x, k);
        var gs: seq<Globals> :| x !in p.loads || (Progress(p, x, gs) && p.run(x, gs).None?);
        FailedVerdict(p, x, gs);
      }
    }
  }
}
