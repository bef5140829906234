/** What the services answer and do, case by case, with every field of it written out. */
module Replies {
  import opened Wrappers
  import opened Actions
  import opened Protocol
  import opened Invariants
  import opened Hits
  import opened Answers

  // ---------- Requests ----------

  /** The path is the dot-free name of the graph, a dot and the key, or the name alone for the empty key. */
  predicate Names(g: AGraph, path: string, key: string) {
    '.' !in g.name && (path == g.name + "." + key || (key == "" && path == g.name))
  }

  lemma MainActionIff(req: GetRequest, a: Action)
    ensures MainAction(req) == Some(a) <==>
            req.graph.Some? && exists key ::
              key in req.graph.value.actions && req.graph.value.actions[key] == a
              && Names(req.graph.value, req.value, key)
  {
    if req.graph.Some? {
      GetActionFinds(req.graph.value, req.value, a);
    }
  }

  /** The entry holds a build of all targets that the action wants. */
  predicate Covers(cv: CacheValue, a: Action) {
    && cv.action.config.BuildImage?
    && (a.config.BuildImage? ==>
          forall t :: t in a.config.build.bazelTargets ==> t in cv.action.config.build.bazelTargets)
  }

  predicate FirstCovering(bucket: seq<CacheValue>, a: Action, i: int) {
    0 <= i < |bucket| && Covers(bucket[i], a) && forall j :: 0 <= j < i ==> !Covers(bucket[j], a)
  }

  /** A request hits the first entry that covers its action, of those filed under the action's digest. */
  lemma HitIff(c: CacheState, req: GetRequest, o: Id)
    ensures Hit(c, req) == Some(o) <==>
            && !req.skipCaching && MainAction(req).Some? && ActionDigest(MainAction(req).value).Some?
            && ActionDigest(MainAction(req).value).value in c.data
            && var bucket := c.data[ActionDigest(MainAction(req).value).value];
               exists i :: FirstCovering(bucket, MainAction(req).value, i) && bucket[i].operation == o
  {
    if MainAction(req).Some? && ActionDigest(MainAction(req).value).Some? {
      var a := MainAction(req).value;
      var bucket := Bucket(c, ActionDigest(a).value);
      FirstAcceptableIsFirst(BuildConfig(a), bucket);
      forall i | 0 <= i < |bucket|
        ensures Acceptable(BuildConfig(a), bucket[i]) <==> Covers(bucket[i], a)
      {
      }
      forall i
        ensures FirstAt(BuildConfig(a), bucket, i) <==> FirstCovering(bucket, a, i)
      {
      }
    }
  }

  /** A hit changes nothing, and is done at once: with the image stored for its operation, if there is one. */
  lemma HitReplies(steps: seq<Step>, req: GetRequest, o: Id)
    requires Hit(After(steps).cache, req) == Some(o)
    ensures var w := After(steps);
            var stored := o in w.cache.upstream && w.cache.upstream[o].done;
            && GetWorld(w, req) == w
            && (stored ==> w.cache.upstream[o].result.BuildResponse?)
            && GetReply(w, req) == Replied(Operation(o, true, GetResponse(
                 if stored then Some(w.cache.upstream[o].result.image) else None)))
  {
    AlwaysInv(steps);
    assert Answered(After(steps), o);
  }

  /**
   The new state after a build was started: its record and task carry what the graph's build action
   says, under fresh ids, and its entry is filed under the digest of the action asked for.
   */
  predicate Starts(w: World, w': World, req: GetRequest) {
    && req.graph.Some? && "build" in req.graph.value.actions
    && req.graph.value.actions["build"].config.BuildImage?
    && req.graph.value.actions["build"].config.build.commitPoint.Some?
    && MainAction(req).Some? && ActionDigest(MainAction(req).value).Some?
    && var a := req.graph.value.actions["build"];
       var at, targets := a.config.build.commitPoint.value, a.config.build.bazelTargets;
       var d := ActionDigest(MainAction(req).value).value;
       var tag, build, operation := w.nextId, w.nextId + 1, w.nextId + 2;
       && w'.nextId == w.nextId + 3 && w'.cluster == w.cluster
       && w'.builder == w.builder.(
            info := w.builder.info[build := BuildInfo(at.branch, at.commitSha, targets, "eval", Some(tag))],
            queue := w.builder.queue + [Task(build, at.branch, at.commitSha, targets, tag)])
       && w'.cache == w.cache.(
            data := w.cache.data[d := (if d in w.cache.data then w.cache.data[d] else [])
                                      + [CacheValue(a, operation)]],
            downstream := w.cache.downstream[operation := build])
  }

  /** A request that changes anything has started a build, and is answered with its operation, not done. */
  lemma GetStarts(w: World, req: GetRequest)
    ensures GetWorld(w, req) != w ==>
              && Starts(w, GetWorld(w, req), req)
              && GetReply(w, req) == Replied(Operation(w.nextId + 2, false, GetResponse(None)))
  {
  }

  /** And it does so exactly if nothing serves it and the graph has a build action with a commit point. */
  lemma GetStartsIff(w: World, req: GetRequest)
    ensures GetWorld(w, req) != w <==>
            && MainAction(req).Some? && Hit(w.cache, req).None? && ActionDigest(MainAction(req).value).Some?
            && "build" in req.graph.value.actions
            && req.graph.value.actions["build"].config.BuildImage?
            && req.graph.value.actions["build"].config.build.commitPoint.Some?
  {
  }

  /** A request fails, changing nothing, exactly if its path or its action's kind is unknown. */
  lemma GetFailsIff(steps: seq<Step>, req: GetRequest)
    ensures var w := After(steps);
            GetReply(w, req) == Failed <==>
              req.graph.Some? && (MainAction(req).None? || ActionDigest(MainAction(req).value).None?)
  {
    AlwaysInv(steps);
    if Hit(After(steps).cache, req).Some? {
      HitReplies(steps, req, Hit(After(steps).cache, req).value);
    }
  }

  lemma FirstBuildRequest(req: GetRequest, build: Action)
    requires req.graph.Some? && "build" in req.graph.value.actions && req.graph.value.actions["build"] == build
    requires MainAction(req) == Some(build) && ActionDigest(build).Some?
    requires build.config.BuildImage? && build.config.build.commitPoint.Some?
    ensures GetReply(INIT, req) == Replied(Operation(2, false, GetResponse(None)))
    ensures Starts(INIT, After([Get(req)]), req)
    ensures After([Get(req)]).cache.data == map[ActionDigest(build).value := [CacheValue(build, 2)]]
  {
    AfterOne(Get(req));
    GetStartsIff(INIT, req);
    GetStarts(INIT, req);
    assert [] + [CacheValue(build, 2)] == [CacheValue(build, 2)];
  }

  /** The client's own graph for images: it has the build action only. */
  function ImageRequest(config: BuildImageConfig, skip: bool): GetRequest {
    GetRequest(skip, Some(AGraph("image", map["build" := Action("build-image", BuildImage(config))])), "image.build")
  }

  lemma ImageAction(config: BuildImageConfig, skip: bool)
    ensures MainAction(ImageRequest(config, skip)) == Some(Action("build-image", BuildImage(config)))
  {
    var req := ImageRequest(config, skip);
    var g := req.graph.value;
    assert req.value == g.name + "." + "build" && '.' !in g.name;
    GetActionFinds(g, req.value, g.actions["build"]);
  }

  /** Whatever its configuration, with a commit point, the first request for it starts the build. */
  lemma FirstImageRequest(config: BuildImageConfig, skip: bool)
    requires config.commitPoint.Some?
    ensures var req, build := ImageRequest(config, skip), Action("build-image", BuildImage(config));
            && GetReply(INIT, req) == Replied(Operation(2, false, GetResponse(None)))
            && Starts(INIT, After([Get(req)]), req)
            && After([Get(req)]).cache.data == map[ActionDigest(build).value := [CacheValue(build, 2)]]
  {
    ImageAction(config, skip);
    FirstBuildRequest(ImageRequest(config, skip), Action("build-image", BuildImage(config)));
  }

  // ---------- Polls ----------

  /** A name that is none of the cache's operations counts as done, and changes nothing. */
  lemma UnknownPoll(steps: seq<Step>, name: Id, answers: bool)
    requires name !in After(steps).cache.downstream
    ensures PollReply(After(steps), name, answers) == Operation(name, true, NoPayload)
    ensures PollWorld(After(steps), name, answers) == After(steps)
  {
    AlwaysInv(steps);
    assert Answered(After(steps), name);
  }

  /** A stored answer is given as it is, under the build's name and in the builder's terms, and stays. */
  lemma StoredPoll(steps: seq<Step>, name: Id, answers: bool)
    requires var c := After(steps).cache;
             name in c.upstream && c.upstream[name].done
    ensures var w := After(steps);
            var reply := PollReply(w, name, answers);
            && name in w.cache.downstream && PollWorld(w, name, answers) == w && reply == w.cache.upstream[name]
            && reply.name == w.cache.downstream[name] > 0 && reply.done && reply.result.BuildResponse?
            && reply.result.image.name == "eval" && reply.result.image.tag == Some(reply.name - 1)
  {
    var w := After(steps);
    AlwaysInv(steps);
    assert Answered(w, name);
    assert Tagged(w, w.cache.downstream[name]);
  }

  /** While the build is not recorded as done, the answer is not done either, and all three fields are empty. */
  lemma PendingPoll(steps: seq<Step>, name: Id, answers: bool)
    requires var w := After(steps);
             name in w.cache.downstream && w.cache.downstream[name] !in w.builder.done
    ensures var w := After(steps);
            && PollReply(w, name, answers) == Operation(name, false, GetResponse(Some(Image("", None, ""))))
            && PollWorld(w, name, answers) == w.(cache := w.cache.(
                 upstream := w.cache.upstream[name := Operation(w.cache.downstream[name], false, NoPayload)]))
  {
    AlwaysInv(steps);
    assert Answered(After(steps), name);
  }

  /** When it is, the first answer has the image, with the digest the registry has for its tag, and is stored. */
  lemma FirstDonePollReplies(steps: seq<Step>, name: Id, answers: bool)
    requires var w := After(steps);
             && name in w.cache.downstream && w.cache.downstream[name] in w.builder.done
             && (name in w.cache.upstream ==> !w.cache.upstream[name].done)
    ensures var w := After(steps);
            var k := w.cache.downstream[name];
            && k > 0
            && var digest := if answers && k - 1 in w.cluster.registry then w.cluster.registry[k - 1] else "";
               var image := Image("eval", Some(k - 1), digest);
               && PollReply(w, name, answers) == Operation(name, true, GetResponse(Some(image)))
               && PollWorld(w, name, answers) == w.(cache := w.cache.(
                    upstream := w.cache.upstream[name := Operation(k, true, BuildResponse(image))]))
  {
    AlwaysInv(steps);
    var k := After(steps).cache.downstream[name];
    assert HasBuild(After(steps), name) && Tagged(After(steps), k) && Settled(After(steps).builder, k);
  }

  /** In any reply to a poll, done or not, a digest means that the job of the operation's build succeeded. */
  lemma PolledDigestVouches(steps: seq<Step>, name: Id, answers: bool)
    ensures var w := After(steps);
            var image := ImageOf(PollReply(w, name, answers).result);
            image.Some? && image.value.digest != "" ==>
              name in w.cache.downstream && JobSucceeded(w.cluster, w.cache.downstream[name])
  {
    var w := After(steps);
    AlwaysInv(steps);
    assert Answered(w, name);
    if name in w.cache.downstream {
      assert HasBuild(w, name);
      DigestIffPushed(w, w.cache.downstream[name], answers);
    }
  }

  // ---------- Workers ----------

  /** No more than two builds run at a time. */
  lemma NeverThree(steps: seq<Step>)
    ensures |After(steps).builder.running| <= 2
  {
    AlwaysInv(steps);
  }

  /** A worker takes the first task exactly if there is one and fewer than two are running. */
  lemma StartsFirst(w: World)
    ensures w.builder.queue == [] || |w.builder.running| >= 2 ==> Apply(w, Start) == w
    ensures w.builder.queue != [] && |w.builder.running| < 2 ==>
              var t := w.builder.queue[0];
              && Apply(w, Start).builder == w.builder.(queue := w.builder.queue[1..],
                                                       running := w.builder.running[t.buildId := Watch(t, {})])
              && t.buildId in Apply(w, Start).cluster.status
              && Apply(w, Start).cluster.status[t.buildId] == Active
  {
  }

  /**
   What an event does to its worker's build. It is passed over if no worker watches for the build,
   or it is a deletion since before the watch, or a mere change with the pods listed.
   */
  lemma EventSettles(b: BuilderState, k: Id, event: WatchEvent, podsListed: bool)
    ensures var heard := k in b.running && (event.Deleted? ==> event.job in b.running[k].deletions);
            var b' := OnEvent(b, k, event, podsListed);
            if heard && (event.Closed? || (event.Deleted? && podsListed)) then
              b' == b.(running := b.running - {k}, done := b.done[k := true])
            else if heard && !podsListed then
              b' == b.(running := b.running - {k}, abandoned := b.abandoned + {k})
            else b' == b
  {
  }

  // ---------- Jobs ----------

  /** An active job ends once: with an image pushed under its tag, it succeeded; without, it failed. */
  lemma JobEndsOnce(w: World, k: Id, digest: string)
    requires k in w.cluster.jobs
    ensures var c, c' := w.cluster, Apply(w, JobEnds(k, digest)).cluster;
            if k !in c.status || c.status[k] != Active then c' == c
            else if digest == "" then c' == c.(status := c.status[k := Over(false)])
            else c' == c.(status := c.status[k := Over(true)],
                          registry := c.registry[c.jobs[k].imageTag := digest])
  {
  }

  /** A job that is over is deleted once, and every worker watching at the time will hear of it. */
  lemma DeletionIsAnnounced(w: World, k: Id)
    ensures var w' := Apply(w, JobDeleted(k));
            if k in w.cluster.status && w.cluster.status[k].Over? && k !in w.cluster.deleted then
              && w'.cluster == w.cluster.(deleted := w.cluster.deleted + {k})
              && w'.builder == w.builder.(running := w'.builder.running)
              && w'.builder.running.Keys == w.builder.running.Keys
              && forall m :: m in w.builder.running ==>
                   w'.builder.running[m] == Watch(w.builder.running[m].task, w.builder.running[m].deletions + {k})
            else w' == w
  {
  }
}
