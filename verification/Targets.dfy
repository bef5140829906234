/** How a client turns its substitutions into the configuration of an image build. */
module Targets {
  import opened Wrappers
  import opened Strings
  import opened Actions
  import opened Protocol
  import opened Hits
  import opened Samples
  import opened Endings

  /** The strings of s, each where it first occurs. */
  ghost function FirstOccurrences(s: seq<string>): seq<string> {
    if s == [] then []
    else
      var rest, last := FirstOccurrences(s[..|s| - 1]), s[|s| - 1];
      if last in s[..|s| - 1] then rest else rest + [last]
  }

  lemma {:induction false} FirstOccurrencesDistinct(s: seq<string>)
    ensures NoDuplicates(FirstOccurrences(s))
    ensures forall x :: x in FirstOccurrences(s) <==> x in s
    decreases |s|
  {
    if s != [] {
      var s' := s[..|s| - 1];
      FirstOccurrencesDistinct(s');
      assert s == s' + [s[|s| - 1]];
    }
  }

  /** Each stands where it first occurs: before it come exactly those that occur before that. */
  lemma {:induction false} FirstOccurrencesInOrder(s: seq<string>, i: nat) returns (p: nat)
    requires i < |FirstOccurrences(s)|
    ensures p < |s| && s[p] == FirstOccurrences(s)[i] && s[p] !in s[..p]
    ensures FirstOccurrences(s[..p]) == FirstOccurrences(s)[..i]
    decreases |s|
  {
    var n := |s| - 1;
    if i < |FirstOccurrences(s[..n])| {
      p := FirstOccurrencesInOrder(s[..n], i);
      assert s[..n][..p] == s[..p];
    } else {
      p := n;
    }
  }

  method Unique(s: seq<string>) returns (result: seq<string>)
    ensures result == FirstOccurrences(s)
  {
    var inResult: set<string> := {};
    result := [];
    for i := 0 to |s|
      invariant forall x :: x in inResult <==> x in s[..i]
      invariant result == FirstOccurrences(s[..i])
    {
      assert s[..i + 1][..i] == s[..i];
      if s[i] !in inResult {
        inResult := inResult + {s[i]};
        result := result + [s[i]];
      }
    }
    assert s[..|s|] == s;
  }

  /** Duplicates out, then sorted: the one sorted list of these strings. */
  method Normalize(s: seq<string>) returns (r: seq<string>)
    ensures Sorted(r) && NoDuplicates(r)
    ensures forall x :: x in r <==> x in s
  {
    var u := Unique(s);
    FirstOccurrencesDistinct(s);
    var a := new string[|u|](i requires 0 <= i < |u| => u[i]);
    assert a[..] == u;
    Sort(a);
    r := a[..];
    SameElements(r, u);
  }

  lemma SameElements(r: seq<string>, u: seq<string>)
    requires multiset(r) == multiset(u) && NoDuplicates(u)
    ensures NoDuplicates(r) && forall x :: x in r <==> x in u
  {
    forall x
      ensures x in r <==> x in u
    {
      assert x in r <==> x in multiset(r);
      assert x in u <==> x in multiset(u);
    }
    forall i, j | 0 <= i < j < |r|
      ensures r[i] != r[j]
    {
      if r[i] == r[j] {
        TwiceInMultiset(r, i, j);
        AtMostOnce(u, r[i]);
      }
    }
  }

  lemma TwiceInMultiset(r: seq<string>, i: nat, j: nat)
    requires i < j < |r| && r[i] == r[j]
    ensures multiset(r)[r[i]] >= 2
  {
    assert r == r[..j] + [r[j]] + r[j + 1..];
    assert r[..j][i] == r[i];
    assert r[i] in multiset(r[..j]);
  }

  lemma {:induction false} AtMostOnce(u: seq<string>, x: string)
    requires NoDuplicates(u)
    ensures multiset(u)[x] <= 1
    decreases |u|
  {
    if u != [] {
      var u' := u[..|u| - 1];
      assert u == u' + [u[|u| - 1]];
      AtMostOnce(u', x);
      if u[|u| - 1] == x {
        assert x !in u';
      }
    }
  }

  const TARGETS_KEY := "image.build.bazel_targets"
  const BRANCH_KEY := "image.build.commit_point.branch"
  const COMMIT_KEY := "image.build.commit_point.commit_sha"
  const WRAPPER := "//actions/wrapper:wrapper"
  const DEFAULT_TARGETS := "//actions/wrapper"

  function GetWithDefault(vars: map<string, string>, name: string, default: string): string {
    if name in vars then vars[name] else default
  }

  /** A target that the client asks for: the wrapper, and the pieces of the override or of the default. */
  predicate Asked(substitutions: map<string, string>, x: string) {
    x == WRAPPER || x in Split(GetWithDefault(substitutions, TARGETS_KEY, DEFAULT_TARGETS), ' ')
  }

  function Branch(substitutions: map<string, string>): string {
    GetWithDefault(substitutions, BRANCH_KEY, "main")
  }

  function Commit(substitutions: map<string, string>): string {
    GetWithDefault(substitutions, COMMIT_KEY, "golden")
  }

  /** The targets are those asked for, sorted and without duplicates; the commit is that asked for. */
  ghost predicate ConfigFor(substitutions: map<string, string>, config: BuildImageConfig) {
    && Sorted(config.bazelTargets) && NoDuplicates(config.bazelTargets)
    && (forall x :: x in config.bazelTargets <==> Asked(substitutions, x))
    && config.imageName == "eval" && config.imageTag == "latest" && config.baseImage == "debian:buster"
    && config.commitPoint == Some(CommitPoint("", Branch(substitutions), Commit(substitutions), ""))
  }

  /**
   With an override of the targets, first is the list after the first pass: the second finds
   nothing left to do.
   */
  method CreateBuildImageConfig(substitutions: map<string, string>)
    returns (config: BuildImageConfig, ghost first: seq<string>)
    ensures ConfigFor(substitutions, config)
    ensures TARGETS_KEY in substitutions ==> first == config.bazelTargets
  {
    var targets := [WRAPPER];
    if TARGETS_KEY in substitutions {
      targets := Normalize(targets + Split(substitutions[TARGETS_KEY], ' '));
    }
    first := targets;
    var text := GetWithDefault(substitutions, TARGETS_KEY, DEFAULT_TARGETS);
    targets := Normalize(targets + Split(text, ' '));
    if TARGETS_KEY in substitutions {
      SortedSetUnique(first, targets);
    }
    var branch, commit := Branch(substitutions), Commit(substitutions);
    config := BuildImageConfig("eval", "latest", "debian:buster",
                               Some(CommitPoint("", branch, commit, "")), targets);
  }

  /** The configuration, every text written out. */
  lemma ConfigIs(s: map<string, string>, config: BuildImageConfig)
    requires ConfigFor(s, config)
    ensures config.imageName == "eval" && config.imageTag == "latest" && config.baseImage == "debian:buster"
    ensures var branch, commit := "image.build.commit_point.branch", "image.build.commit_point.commit_sha";
            config.commitPoint == Some(CommitPoint("", if branch in s then s[branch] else "main",
                                                   if commit in s then s[commit] else "golden", ""))
    ensures var targets := "image.build.bazel_targets";
            forall x :: x in config.bazelTargets <==>
              x == "//actions/wrapper:wrapper"
              || x in Split(if targets in s then s[targets] else "//actions/wrapper", ' ')
  {
  }

  /** The same source and the same targets asked for, in any order and however often. */
  ghost predicate SameWishes(s: map<string, string>, t: map<string, string>) {
    Branch(s) == Branch(t) && Commit(s) == Commit(t) && forall x :: Asked(s, x) <==> Asked(t, x)
  }

  /** Two configurations are the same exactly if the same is asked for. */
  lemma SameConfigIff(s: map<string, string>, c: BuildImageConfig, t: map<string, string>, d: BuildImageConfig)
    requires ConfigFor(s, c) && ConfigFor(t, d)
    ensures c == d <==> SameWishes(s, t)
  {
    if SameWishes(s, t) {
      SortedSetUnique(c.bazelTargets, d.bazelTargets);
    }
    if c == d {
      forall x
        ensures Asked(s, x) <==> Asked(t, x)
      {
        assert x in c.bazelTargets <==> x in d.bazelTargets;
      }
    }
  }

  function ActionOf(config: BuildImageConfig): Action {
    Action("build-image", BuildImage(config))
  }

  /** A request that uses the cache and asks for the build action, with this configuration. */
  predicate AsksFor(req: GetRequest, config: BuildImageConfig) {
    Ordinary(req) && BuildAction(req).value == ActionOf(config)
  }

  /**
   Whatever the cache holds: a build that one client's request starts serves another's request,
   if nothing serves that already, exactly if both ask for the same branch and commit, and the
   first for all targets of the second.
   */
  lemma ServedByIff(w: World, s: map<string, string>, c: BuildImageConfig, first: GetRequest,
                    t: map<string, string>, d: BuildImageConfig, second: GetRequest)
    requires ConfigFor(s, c) && ConfigFor(t, d) && AsksFor(first, c) && AsksFor(second, d)
    requires Misses(w.cache, first) && Hit(w.cache, second).None?
    ensures Hit(Miss(w, first).cache, second) == Some(w.nextId + 2)
       <==> Branch(s) == Branch(t) && Commit(s) == Commit(t) && forall x :: Asked(t, x) ==> Asked(s, x)
  {
    MissServesIff(w, first, second);
    CompatibleIff(s, c, t, d);
  }

  lemma CompatibleIff(s: map<string, string>, c: BuildImageConfig, t: map<string, string>, d: BuildImageConfig)
    requires ConfigFor(s, c) && ConfigFor(t, d)
    ensures Compatible(d, c) <==> forall x :: Asked(t, x) ==> Asked(s, x)
  {
    if Compatible(d, c) {
      forall x | Asked(t, x)
        ensures Asked(s, x)
      {
        assert x in d.bazelTargets;
      }
    }
  }

  // ---------- What becomes of the targets ----------

  /**
   The job for a client's configuration is told to build what the client asked for exactly if
   everything asked for is a word.
   */
  lemma JobBuildsAskedIff(s: map<string, string>, c: BuildImageConfig, req: GetRequest)
    requires ConfigFor(s, c) && AsksFor(req, c)
    ensures var w := After(OneRunning(req));
            && 1 in w.cluster.jobs && 1 in w.builder.info && w.builder.info[1].targets == c.bazelTargets
            && (Words(w.cluster.jobs[1].targets) == c.bazelTargets <==> forall x :: Asked(s, x) ==> IsWord(x))
  {
    AfterOneRunning(req);
    RecordOfFirst(req);
    JobBuildsTargetsIff(OneRunning(req), 1);
  }

  /**
   For an override that is empty, or has a space first, last or next to another, the job is not
   told to build the targets on record.
   */
  lemma OverrideNotBuilt(s: map<string, string>, c: BuildImageConfig) returns (req: GetRequest)
    requires ConfigFor(s, c) && TARGETS_KEY in s
    requires var text := s[TARGETS_KEY];
             text == "" || text[0] == ' ' || exists k :: NothingAfter(text, ' ', k)
    ensures AsksFor(req, c)
    ensures var w := After(OneRunning(req));
            && 1 in w.cluster.jobs && 1 in w.builder.info && w.builder.info[1].targets == c.bazelTargets
            && Words(w.cluster.jobs[1].targets) != c.bazelTargets
  {
    req := SomeRequest(ActionOf(c));
    JobBuildsAskedIff(s, c, req);
    EmptyPieceIff(s[TARGETS_KEY], ' ');
    assert Asked(s, "") && !IsWord("");
  }
}
