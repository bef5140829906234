/** The first runs that any request for a build gives rise to, and a request that there is. */
module Samples {
  import opened Wrappers
  import opened Actions
  import opened Protocol
  import opened Hits

  /** The request asks for a build action that can be built. */
  predicate Buildable(req: GetRequest) {
    && Ordinary(req)
    && ActionDigest(BuildAction(req).value).Some?
    && BuildTarget(req).Some?
  }

  /** Any action can be asked for as the build action of a graph. */
  lemma SomeRequest(action: Action) returns (req: GetRequest)
    ensures Ordinary(req) && BuildAction(req) == Some(action)
  {
    var g := AGraph("", map["build" := action]);
    req := GetRequest(false, Some(g), ".build");
    assert req.value == g.name + "." + "build";
    GetActionFinds(g, req.value, action);
  }

  lemma SomeBuildable() returns (req: GetRequest)
    ensures Buildable(req)
  {
    var config := BuildImageConfig("", "", "", Some(CommitPoint("", "", "", "")), []);
    req := SomeRequest(Action("build-image", BuildImage(config)));
  }

  function TaskOf(req: GetRequest, buildId: Id, tag: Id): Task
    requires Buildable(req)
  {
    var at := BuildTarget(req).value;
    Task(buildId, at.branch, at.commitSha, BuildConfig(BuildAction(req).value).bazelTargets, tag)
  }

  /** The request, then a worker taking its task: build 1, with operation 2, under tag 0. */
  function OneRunning(req: GetRequest): seq<Step> {
    [Get(req)] + [Start]
  }

  lemma AfterRequest(req: GetRequest)
    requires Buildable(req)
    ensures After([Get(req)]) == Miss(INIT, req)
    ensures Misses(INIT.cache, req)
    ensures Hit(After([Get(req)]).cache, req) == Some(2)
  {
    var d := ActionDigest(BuildAction(req).value).value;
    var config := BuildConfig(BuildAction(req).value);
    assert Misses(INIT.cache, req);
    AfterOne(Get(req));
    var bucket := Bucket(Miss(INIT, req).cache, d);
    assert bucket == [CacheValue(BuildAction(req).value, 2)];
    assert Acceptable(config, bucket[0]);
  }

  lemma AfterOneRunning(req: GetRequest)
    requires Buildable(req)
    ensures var w := After(OneRunning(req));
            && w.builder.running == map[1 := Watch(TaskOf(req, 1, 0), {})] && w.builder.queue == []
            && w.builder.done == map[] && w.builder.abandoned == {}
            && w.cluster == CreateJob(INIT.cluster, TaskOf(req, 1, 0))
            && w.cache.downstream == map[2 := 1] && w.cache.upstream == map[] && w.nextId == 3
            && Hit(w.cache, req) == Some(2)
  {
    AfterRequest(req);
    AfterNext([Get(req)], Start);
  }

  /** The same request without the cache: a second build, 4, with operation 5, under tag 3. */
  function TwoRunning(req: GetRequest): seq<Step> {
    OneRunning(req) + [Get(req.(skipCaching := true))] + [Start]
  }

  lemma AfterTwoRunning(req: GetRequest)
    requires Buildable(req)
    ensures var w := After(TwoRunning(req));
            && w.builder.running == map[1 := Watch(TaskOf(req, 1, 0), {}), 4 := Watch(TaskOf(req, 4, 3), {})]
            && w.cluster == CreateJob(CreateJob(INIT.cluster, TaskOf(req, 1, 0)), TaskOf(req, 4, 3))
            && w.builder.done == map[] && w.cache.downstream == map[2 := 1, 5 := 4]
  {
    var again := Get(req.(skipCaching := true));
    AfterOneRunning(req);
    AfterNext(OneRunning(req), again);
    var w := After(OneRunning(req) + [again]);
    assert w.builder.queue == [TaskOf(req, 4, 3)];
    assert w.builder.running.Keys == {1};
    AfterNext(OneRunning(req) + [again], Start);
  }
}
