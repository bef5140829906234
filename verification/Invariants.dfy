/**
 What every step of the cache and builder keeps. Each invariant says one thing of one id,
 or of one position in the cache, for all of them.
 */
module Invariants {
  import opened Wrappers
  import opened Strings
  import opened Actions
  import opened Protocol

  /** A place in the cache: a bucket and a position in it. */
  predicate At(c: CacheState, d: Digest, i: int) {
    d in c.data && 0 <= i < |c.data[d]|
  }

  // ---------- Operations and builds ----------

  /** An operation has a build, and its id is not still to come. */
  predicate HasBuild(w: World, o: Id) {
    o in w.cache.downstream ==> o < w.nextId && w.cache.downstream[o] in w.builder.info
  }

  /** A build has an operation, and its id is not still to come. */
  ghost predicate HasOperation(w: World, b: Id) {
    b in w.builder.info ==> b < w.nextId && exists o :: IsBuildOf(w, o, b)
  }

  predicate IsBuildOf(w: World, o: Id, b: Id) {
    o in w.cache.downstream && w.cache.downstream[o] == b
  }

  predicate OneOperation(w: World, o: Id, p: Id, b: Id) {
    IsBuildOf(w, o, b) && IsBuildOf(w, p, b) ==> o == p
  }

  /** Operations and builds correspond one to one. */
  ghost predicate Matched(w: World) {
    && (forall o :: HasBuild(w, o))
    && (forall b :: HasOperation(w, b))
    && (forall o, p, b :: OneOperation(w, o, p, b))
  }

  // ---------- Cache entries ----------

  /** The record of the build behind an entry is that of the entry's own configuration. */
  predicate Recorded(w: World, cv: CacheValue) {
    && cv.operation in w.cache.downstream
    && w.cache.downstream[cv.operation] in w.builder.info
    && cv.action.config.BuildImage?
    && cv.action.config.build.commitPoint.Some?
    && var info := w.builder.info[w.cache.downstream[cv.operation]];
       && info.branch == cv.action.config.build.commitPoint.value.branch
       && info.commitSha == cv.action.config.build.commitPoint.value.commitSha
       && info.targets == cv.action.config.build.bazelTargets
  }

  predicate EntryRecorded(w: World, d: Digest, i: int) {
    At(w.cache, d, i) ==> Recorded(w, w.cache.data[d][i])
  }

  predicate Holds(c: CacheState, d: Digest, i: int, o: Id) {
    At(c, d, i) && c.data[d][i].operation == o
  }

  ghost predicate Placed(c: CacheState, o: Id) {
    o in c.downstream ==> exists d, i :: Holds(c, d, i, o)
  }

  predicate OnePlace(c: CacheState, d: Digest, i: int, e: Digest, j: int, o: Id) {
    Holds(c, d, i, o) && Holds(c, e, j, o) ==> d == e && i == j
  }

  /** Every entry has its build on record; every operation stands in exactly one place. */
  ghost predicate Entries(w: World) {
    && (forall d, i :: EntryRecorded(w, d, i))
    && (forall o :: Placed(w.cache, o))
    && (forall d, i, e, j, o :: OnePlace(w.cache, d, i, e, j, o))
  }

  // ---------- Builds and their tasks ----------

  /** A task carries what its build's record says. */
  predicate TaskMatches(b: BuilderState, t: Task) {
    && t.buildId in b.info
    && b.info[t.buildId] == BuildInfo(t.branch, t.commitSha, t.targets, "eval", Some(t.imageTag))
  }

  ghost predicate Queued(b: BuilderState, k: Id) {
    exists i :: QueuedAt(b, i, k)
  }

  predicate QueuedAt(b: BuilderState, i: int, k: Id) {
    0 <= i < |b.queue| && b.queue[i].buildId == k
  }

  predicate Taken(b: BuilderState, k: Id) {
    k in b.running || k in b.done || k in b.abandoned
  }

  predicate Waiting(b: BuilderState, i: int) {
    0 <= i < |b.queue| ==> TaskMatches(b, b.queue[i]) && !Taken(b, b.queue[i].buildId)
  }

  predicate QueuedOnce(b: BuilderState, i: int, j: int, k: Id) {
    QueuedAt(b, i, k) && QueuedAt(b, j, k) ==> i == j
  }

  predicate Running(b: BuilderState, k: Id) {
    k in b.running ==>
      TaskMatches(b, b.running[k].task) && b.running[k].task.buildId == k && k !in b.done && k !in b.abandoned
  }

  predicate Settled(b: BuilderState, k: Id) {
    && (k in b.done ==> k in b.info && k !in b.abandoned && b.done[k])
    && (k in b.abandoned ==> k in b.info)
  }

  ghost predicate SomeStage(b: BuilderState, k: Id) {
    k in b.info ==> Queued(b, k) || Taken(b, k)
  }

  /** Every build is in exactly one stage, and its task matches its record in each. */
  ghost predicate Staged(b: BuilderState) {
    && |b.running| <= CONCURRENCY
    && (forall i :: Waiting(b, i))
    && (forall i, j, k :: QueuedOnce(b, i, j, k))
    && (forall k :: Running(b, k))
    && (forall k :: Settled(b, k))
    && (forall k :: SomeStage(b, k))
  }

  // ---------- Jobs and images ----------

  /** The image of a build is called eval, and its tag is the id drawn before the build's own. */
  predicate Tagged(w: World, k: Id) {
    k in w.builder.info ==>
      k > 0 && w.builder.info[k].imageTag == Some(k - 1) && w.builder.info[k].imageName == "eval"
  }

  /** A build has a job exactly once it left the queue, and the job is made from its record. */
  predicate JobMatches(w: World, k: Id) {
    && (Taken(w.builder, k) <==> k in w.cluster.jobs)
    && (k in w.cluster.jobs ==>
          && k in w.builder.info && w.builder.info[k].imageTag.Some?
          && var info := w.builder.info[k];
             w.cluster.jobs[k] == JobSpec(k, info.branch, info.commitSha, Join(info.targets, ' '), info.imageTag.value))
  }

  predicate JobStands(c: ClusterState, k: Id) {
    (k in c.jobs <==> k in c.status) && (k in c.deleted ==> JobOver(c, k))
  }

  /** A worker hears only of deletions that happened. */
  predicate HeardOf(w: World, k: Id, j: Id) {
    k in w.builder.running && j in w.builder.running[k].deletions ==> j in w.cluster.deleted
  }

  /** A tag has an image exactly if the job it was made for succeeded, and its digest is not empty. */
  predicate Images(c: ClusterState, tag: Id) {
    (tag in c.registry <==> JobSucceeded(c, tag + 1)) && (tag in c.registry ==> c.registry[tag] != "")
  }

  ghost predicate Jobs(w: World) {
    && (forall k :: Tagged(w, k))
    && (forall k :: JobMatches(w, k))
    && (forall k :: JobStands(w.cluster, k))
    && (forall k, j :: HeardOf(w, k, j))
    && (forall tag :: Images(w.cluster, tag))
  }

  // ---------- What the cache knows of its operations ----------

  /**
   What is stored for an operation is an answer its builder gave; done only if the build is, and
   with a digest only if its job succeeded.
   */
  predicate Answered(w: World, o: Id) {
    o in w.cache.upstream ==>
      && o in w.cache.downstream
      && var b, last := w.cache.downstream[o], w.cache.upstream[o];
         last.name == b &&
         if last.done then
           && BuildDone(w.builder, b) && b in w.builder.info && last.result.BuildResponse?
           && last.result.image.name == w.builder.info[b].imageName
           && last.result.image.tag == w.builder.info[b].imageTag
           && (last.result.image.digest != "" ==> JobSucceeded(w.cluster, b))
         else last.result == NoPayload
  }

  ghost predicate Upstream(w: World) {
    forall o :: Answered(w, o)
  }

  ghost predicate Inv(w: World) {
    Matched(w) && Entries(w) && Staged(w.builder) && Jobs(w) && Upstream(w)
  }

  // ---------- A miss ----------

  lemma MissMatched(w: World, req: GetRequest)
    requires Matched(w) && Misses(w.cache, req)
    ensures Matched(Miss(w, req))
  {
    var w' := Miss(w, req);
    forall o
      ensures HasBuild(w', o)
    {
      assert HasBuild(w, o);
    }
    forall b
      ensures HasOperation(w', b)
    {
      assert HasOperation(w, b) && HasBuild(w, w.nextId + 2);
      if o :| IsBuildOf(w, o, b) {
        assert IsBuildOf(w', o, b);
      }
      assert IsBuildOf(w', w.nextId + 2, w.nextId + 1);
    }
    forall o, p, b
      ensures OneOperation(w', o, p, b)
    {
      assert OneOperation(w, o, p, b) && HasOperation(w, b);
      assert HasBuild(w, o) && HasBuild(w, p);
    }
  }

  function PutAt(c: CacheState, req: GetRequest): (Digest, int)
    requires Misses(c, req)
  {
    var d := ActionDigest(MainAction(req).value).value;
    (d, |Bucket(c, d)|)
  }

  /** The places after a miss are the old ones and one at the end of the bucket put to. */
  lemma MissAt(w: World, req: GetRequest, d: Digest, i: int)
    requires Misses(w.cache, req)
    ensures var c' := Miss(w, req).cache;
            At(c', d, i) ==>
              if (d, i) == PutAt(w.cache, req) then
                c'.data[d][i] == CacheValue(BuildAction(req).value, w.nextId + 2) && !At(w.cache, d, i)
              else At(w.cache, d, i) && c'.data[d][i] == w.cache.data[d][i]
    ensures var c' := Miss(w, req).cache;
            (At(w.cache, d, i) || (d, i) == PutAt(w.cache, req)) ==> At(c', d, i)
  {
  }

  lemma MissEntryRecorded(w: World, req: GetRequest, d: Digest, i: int)
    requires Matched(w) && Misses(w.cache, req) && EntryRecorded(w, d, i)
    ensures EntryRecorded(Miss(w, req), d, i)
  {
    MissAt(w, req, d, i);
    if At(w.cache, d, i) {
      assert HasBuild(w, w.cache.data[d][i].operation);
      assert HasOperation(w, w.nextId + 1);
    }
  }

  lemma MissPlaced(w: World, req: GetRequest, o: Id)
    requires Misses(w.cache, req) && Placed(w.cache, o)
    ensures Placed(Miss(w, req).cache, o)
  {
    var c' := Miss(w, req).cache;
    if o in w.cache.downstream {
      var d, i :| Holds(w.cache, d, i, o);
      MissAt(w, req, d, i);
      assert Holds(c', d, i, o);
    } else if o in c'.downstream {
      var (d, i) := PutAt(w.cache, req);
      MissAt(w, req, d, i);
      assert Holds(c', d, i, o);
    }
  }

  lemma MissOnePlace(w: World, req: GetRequest, d: Digest, i: int, e: Digest, j: int, o: Id)
    requires Matched(w) && Entries(w) && Misses(w.cache, req)
    ensures OnePlace(Miss(w, req).cache, d, i, e, j, o)
  {
    MissAt(w, req, d, i);
    MissAt(w, req, e, j);
    assert OnePlace(w.cache, d, i, e, j, o);
    assert EntryRecorded(w, d, i) && EntryRecorded(w, e, j);
    assert HasBuild(w, w.nextId + 2);
  }

  lemma MissEntries(w: World, req: GetRequest)
    requires Matched(w) && Entries(w) && Misses(w.cache, req)
    ensures Entries(Miss(w, req))
  {
    var w' := Miss(w, req);
    forall d, i
      ensures EntryRecorded(w', d, i)
    {
      assert EntryRecorded(w, d, i);
      MissEntryRecorded(w, req, d, i);
    }
    forall o
      ensures Placed(w'.cache, o)
    {
      assert Placed(w.cache, o);
      MissPlaced(w, req, o);
    }
    forall d, i, e, j, o
      ensures OnePlace(w'.cache, d, i, e, j, o)
    {
      MissOnePlace(w, req, d, i, e, j, o);
    }
  }

  lemma BuildStaged(b: BuilderState, tag: Id, k: Id, branch: string, commit: string, targets: seq<string>)
    requires Staged(b) && k !in b.info
    ensures Staged(Build(b, tag, k, branch, commit, targets))
  {
    var b' := Build(b, tag, k, branch, commit, targets);
    assert Settled(b, k) && Running(b, k);
    forall i
      ensures Waiting(b', i)
    {
      assert Waiting(b, i);
    }
    forall i, j, m
      ensures QueuedOnce(b', i, j, m)
    {
      assert QueuedOnce(b, i, j, m);
      assert Waiting(b, i) && Waiting(b, j);
    }
    forall m
      ensures Running(b', m) && Settled(b', m)
    {
      assert Running(b, m) && Settled(b, m);
    }
    forall m
      ensures SomeStage(b', m)
    {
      assert SomeStage(b, m);
      if i :| QueuedAt(b, i, m) {
        assert QueuedAt(b', i, m);
      }
      assert QueuedAt(b', |b.queue|, k);
    }
  }

  /** A new record under a fresh id, with the id before it as its tag, has no job yet. */
  lemma BuildJobs(w: World, w': World, k: Id, branch: string, commit: string, targets: seq<string>)
    requires Jobs(w) && k > 0 && k !in w.builder.info && w'.cluster == w.cluster
    requires w'.builder == Build(w.builder, k - 1, k, branch, commit, targets)
    ensures Jobs(w')
  {
    assert JobMatches(w, k);
    forall m
      ensures Tagged(w', m) && JobMatches(w', m)
    {
      assert Tagged(w, m) && JobMatches(w, m);
    }
    forall m, j
      ensures HeardOf(w', m, j)
    {
      assert HeardOf(w, m, j);
    }
  }

  lemma MissInv(w: World, req: GetRequest)
    requires Inv(w) && Misses(w.cache, req)
    ensures Inv(Miss(w, req))
  {
    MissMatched(w, req);
    MissEntries(w, req);
    var at := BuildTarget(req).value;
    assert HasOperation(w, w.nextId + 1);
    var targets := BuildConfig(BuildAction(req).value).bazelTargets;
    BuildStaged(w.builder, w.nextId, w.nextId + 1, at.branch, at.commitSha, targets);
    BuildJobs(w, Miss(w, req), w.nextId + 1, at.branch, at.commitSha, targets);
    forall o
      ensures Answered(Miss(w, req), o)
    {
      assert Answered(w, o) && HasBuild(w, o) && HasBuild(w, w.nextId + 2);
    }
  }

  // ---------- The other steps ----------

  /** A step that leaves the entries and the records alone keeps what is said of them. */
  lemma SameEntries(w: World, w': World)
    requires Matched(w) && Entries(w)
    requires w'.cache.data == w.cache.data && w'.cache.downstream == w.cache.downstream
    requires w'.builder.info == w.builder.info && w'.nextId >= w.nextId
    ensures Matched(w') && Entries(w')
  {
    forall o
      ensures HasBuild(w', o)
    {
      assert HasBuild(w, o);
    }
    forall b
      ensures HasOperation(w', b)
    {
      assert HasOperation(w, b);
      if o :| IsBuildOf(w, o, b) {
        assert IsBuildOf(w', o, b);
      }
    }
    forall o, p, b
      ensures OneOperation(w', o, p, b)
    {
      assert OneOperation(w, o, p, b);
    }
    forall d, i
      ensures EntryRecorded(w', d, i)
    {
      assert EntryRecorded(w, d, i);
    }
    forall o
      ensures Placed(w'.cache, o)
    {
      assert Placed(w.cache, o);
      if d, i :| Holds(w.cache, d, i, o) {
        assert Holds(w'.cache, d, i, o);
      }
    }
    forall d, i, e, j, o
      ensures OnePlace(w'.cache, d, i, e, j, o)
    {
      assert OnePlace(w.cache, d, i, e, j, o);
    }
  }

  /** Jobs do not depend on the cache or the next id. */
  lemma SameJobs(w: World, w': World)
    requires Jobs(w) && w'.builder == w.builder && w'.cluster == w.cluster
    ensures Jobs(w')
  {
    forall k
      ensures Tagged(w', k) && JobMatches(w', k)
    {
      assert Tagged(w, k) && JobMatches(w, k);
    }
    forall k, j
      ensures HeardOf(w', k, j)
    {
      assert HeardOf(w, k, j);
    }
  }

  lemma PollInv(w: World, name: Id, answers: bool)
    requires Inv(w)
    ensures Inv(PollWorld(w, name, answers))
  {
    var w' := PollWorld(w, name, answers);
    SameEntries(w, w');
    SameJobs(w, w');
    forall o
      ensures Answered(w', o)
    {
      assert Answered(w, o) && HasBuild(w, name);
      if name in w.cache.downstream {
        DigestIffPushed(w, w.cache.downstream[name], answers);
      }
    }
  }

  lemma StartQueue(b: BuilderState)
    requires Staged(b) && CanStart(b)
    ensures forall i :: Waiting(StartTask(b), i)
    ensures forall i, j, k :: QueuedOnce(StartTask(b), i, j, k)
    ensures forall k :: SomeStage(StartTask(b), k)
  {
    var b' := StartTask(b);
    var t := b.queue[0];
    forall i
      ensures Waiting(b', i)
    {
      assert Waiting(b, i + 1) && QueuedOnce(b, 0, i + 1, t.buildId);
    }
    forall i, j, k
      ensures QueuedOnce(b', i, j, k)
    {
      assert QueuedOnce(b, i + 1, j + 1, k);
    }
    forall k
      ensures SomeStage(b', k)
    {
      assert SomeStage(b, k);
      if i :| QueuedAt(b, i, k) && i > 0 {
        assert QueuedAt(b', i - 1, k);
      }
    }
  }

  lemma StartStaged(b: BuilderState)
    requires Staged(b) && CanStart(b)
    ensures Staged(StartTask(b))
  {
    var b' := StartTask(b);
    StartQueue(b);
    assert Waiting(b, 0);
    assert b'.running.Keys == b.running.Keys + {b.queue[0].buildId};
    forall k
      ensures Running(b', k) && Settled(b', k)
    {
      assert Running(b, k) && Settled(b, k);
    }
  }

  /** The job of the task taken carries what its build's record says. */
  lemma StartJobs(w: World)
    requires Staged(w.builder) && Jobs(w) && CanStart(w.builder)
    ensures Jobs(StartWorld(w))
  {
    var w' := StartWorld(w);
    var t := w.builder.queue[0];
    assert Waiting(w.builder, 0) && JobMatches(w, t.buildId) && JobStands(w.cluster, t.buildId);
    assert Tagged(w, t.buildId);
    forall k
      ensures Tagged(w', k) && JobMatches(w', k) && JobStands(w'.cluster, k)
    {
      assert Tagged(w, k) && JobMatches(w, k) && JobStands(w.cluster, k);
    }
    forall tag
      ensures Images(w'.cluster, tag)
    {
      assert Images(w.cluster, tag);
    }
    forall k, j
      ensures HeardOf(w', k, j)
    {
      assert HeardOf(w, k, j);
    }
  }

  /** A task that ends is no longer running, and its build is done or abandoned. */
  predicate Ends(b: BuilderState, b': BuilderState, k: Id) {
    k in b.running && (b' == FinishTask(b, k) || b' == AbandonTask(b, k))
  }

  lemma EndStaged(b: BuilderState, b': BuilderState, k: Id)
    requires Staged(b) && Ends(b, b', k)
    ensures Staged(b')
  {
    assert Running(b, k);
    assert b'.running.Keys == b.running.Keys - {k};
    forall i
      ensures Waiting(b', i)
    {
      assert Waiting(b, i);
    }
    forall i, j, m
      ensures QueuedOnce(b', i, j, m)
    {
      assert QueuedOnce(b, i, j, m);
    }
    forall m
      ensures Running(b', m) && Settled(b', m)
    {
      assert Running(b, m) && Settled(b, m);
    }
    SameStages(b, b');
  }

  lemma SameStages(b: BuilderState, b': BuilderState)
    requires forall k :: SomeStage(b, k)
    requires b'.info == b.info && b'.queue == b.queue && forall k :: Taken(b', k) <==> Taken(b, k)
    ensures forall k :: SomeStage(b', k)
  {
    forall k
      ensures SomeStage(b', k)
    {
      assert SomeStage(b, k);
      if i :| QueuedAt(b, i, k) {
        assert QueuedAt(b', i, k);
      }
    }
  }

  lemma EndJobs(w: World, b': BuilderState, k: Id)
    requires Jobs(w) && Ends(w.builder, b', k)
    ensures Jobs(w.(builder := b'))
  {
    var w' := w.(builder := b');
    forall m
      ensures Tagged(w', m) && JobMatches(w', m)
    {
      assert Tagged(w, m) && JobMatches(w, m);
    }
    forall m, j
      ensures HeardOf(w', m, j)
    {
      assert HeardOf(w, m, j);
    }
  }

  /** The steps of workers and cluster leave records alone and never undo a record of done. */
  lemma WorkerInv(w: World, w': World)
    requires Inv(w) && Staged(w'.builder) && Jobs(w')
    requires w'.cache == w.cache && w'.nextId == w.nextId && w'.builder.info == w.builder.info
    requires forall k :: BuildDone(w.builder, k) ==> BuildDone(w'.builder, k)
    requires forall k :: JobSucceeded(w.cluster, k) ==> JobSucceeded(w'.cluster, k)
    ensures Inv(w')
  {
    SameEntries(w, w');
    forall o
      ensures Answered(w', o)
    {
      assert Answered(w, o);
    }
  }

  lemma StartInv(w: World)
    requires Inv(w)
    ensures Inv(StartWorld(w))
  {
    if CanStart(w.builder) {
      StartStaged(w.builder);
      StartJobs(w);
      var k := w.builder.queue[0].buildId;
      assert Waiting(w.builder, 0) && JobMatches(w, k) && JobStands(w.cluster, k);
      WorkerInv(w, StartWorld(w));
    }
  }

  lemma EventInv(w: World, k: Id, event: WatchEvent, podsListed: bool)
    requires Inv(w)
    ensures Inv(w.(builder := OnEvent(w.builder, k, event, podsListed)))
  {
    var b' := OnEvent(w.builder, k, event, podsListed);
    if b' != w.builder {
      assert Ends(w.builder, b', k);
      EndStaged(w.builder, b', k);
      EndJobs(w, b', k);
    }
    WorkerInv(w, w.(builder := b'));
  }

  lemma AnnounceStaged(b: BuilderState, k: Id)
    requires Staged(b)
    ensures Staged(Announce(b, k))
  {
    var b' := Announce(b, k);
    assert b'.running.Keys == b.running.Keys;
    forall i
      ensures Waiting(b', i)
    {
      assert Waiting(b, i);
    }
    forall i, j, m
      ensures QueuedOnce(b', i, j, m)
    {
      assert QueuedOnce(b, i, j, m);
    }
    forall m
      ensures Running(b', m) && Settled(b', m)
    {
      assert Running(b, m) && Settled(b, m);
    }
    SameStages(b, b');
  }

  lemma DeleteInv(w: World, k: Id)
    requires Inv(w)
    ensures Inv(DeleteWorld(w, k))
  {
    var w' := DeleteWorld(w, k);
    if CanDelete(w.cluster, k) {
      AnnounceStaged(w.builder, k);
      forall m
        ensures Tagged(w', m) && JobMatches(w', m) && JobStands(w'.cluster, m) && Images(w'.cluster, m)
      {
        assert Tagged(w, m) && JobMatches(w, m) && JobStands(w.cluster, m) && Images(w.cluster, m);
      }
      forall m, j
        ensures HeardOf(w', m, j)
      {
        assert HeardOf(w, m, j);
      }
      WorkerInv(w, w');
    }
  }

  /** What happens to jobs and images alone. */
  lemma ClusterInv(w: World, c': ClusterState)
    requires Inv(w) && c'.jobs == w.cluster.jobs && c'.deleted == w.cluster.deleted
    requires forall k :: JobStands(c', k)
    requires forall tag :: Images(c', tag)
    requires forall k :: JobSucceeded(w.cluster, k) ==> JobSucceeded(c', k)
    ensures Inv(w.(cluster := c'))
  {
    var w' := w.(cluster := c');
    forall k
      ensures Tagged(w', k) && JobMatches(w', k)
    {
      assert Tagged(w, k) && JobMatches(w, k);
    }
    forall k, j
      ensures HeardOf(w', k, j)
    {
      assert HeardOf(w, k, j);
    }
    WorkerInv(w, w');
  }

  lemma JobEndsInv(w: World, k: Id, digest: string)
    requires Inv(w)
    ensures Inv(w.(cluster := EndJob(w.cluster, k, digest)))
  {
    var c' := EndJob(w.cluster, k, digest);
    assert JobMatches(w, k) && Tagged(w, k);
    forall m
      ensures JobStands(c', m) && Images(c', m)
    {
      assert JobStands(w.cluster, m) && Images(w.cluster, m) && JobStands(w.cluster, k);
    }
    ClusterInv(w, c');
  }

  lemma PushedInv(w: World, tag: Id, digest: string)
    requires Inv(w)
    ensures Inv(w.(cluster := Repush(w.cluster, tag, digest)))
  {
    var c' := Repush(w.cluster, tag, digest);
    forall m
      ensures JobStands(c', m) && Images(c', m)
    {
      assert JobStands(w.cluster, m) && Images(w.cluster, m);
    }
    ClusterInv(w, c');
  }

  lemma NewIdInv(w: World)
    requires Inv(w)
    ensures Inv(w.(nextId := w.nextId + 1))
  {
    var w' := w.(nextId := w.nextId + 1);
    SameEntries(w, w');
    SameJobs(w, w');
    forall o
      ensures Answered(w', o)
    {
      assert Answered(w, o);
    }
  }

  lemma ApplyInv(w: World, s: Step)
    requires Inv(w)
    ensures Inv(Apply(w, s))
  {
    match s {
      case Get(req) =>
        if Misses(w.cache, req) {
          MissInv(w, req);
        }
      case Poll(name, answers) =>
        PollInv(w, name, answers);
      case Start =>
        StartInv(w);
      case Event(k, event, podsListed) =>
        EventInv(w, k, event, podsListed);
      case JobEnds(k, digest) =>
        JobEndsInv(w, k, digest);
      case JobDeleted(k) =>
        DeleteInv(w, k);
      case Pushed(tag, digest) =>
        PushedInv(w, tag, digest);
      case NewId =>
        NewIdInv(w);
    }
  }

  /** The digest of a build's image, asked for now, is there exactly if its job pushed it. */
  lemma DigestIffPushed(w: World, k: Id, answers: bool)
    requires Jobs(w) && k in w.builder.info
    ensures DigestOf(w.cluster, w.builder.info[k].imageTag, answers) != "" <==>
            answers && JobSucceeded(w.cluster, k)
  {
    assert Tagged(w, k) && Images(w.cluster, k - 1);
  }

  lemma {:induction false} RunInv(w: World, steps: seq<Step>)
    requires Inv(w)
    ensures Inv(Run(w, steps))
    decreases |steps|
  {
    if steps != [] {
      var n := |steps| - 1;
      RunInv(w, steps[..n]);
      ApplyInv(Run(w, steps[..n]), steps[n]);
    }
  }

  /** The invariants hold after every run. */
  lemma AlwaysInv(steps: seq<Step>)
    ensures Inv(After(steps))
  {
    InitInv();
    RunInv(INIT, steps);
  }

  lemma InitInv()
    ensures Inv(INIT)
  {
    forall k
      ensures Tagged(INIT, k) && JobMatches(INIT, k) && JobStands(INIT.cluster, k) && Images(INIT.cluster, k)
    {
    }
  }
}
