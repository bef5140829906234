/** Which requests hit which operations, over whole runs, and what the builds behind them are. */
module Hits {
  import opened Wrappers
  import opened Actions
  import opened Protocol
  import opened Invariants

  // ---------- The entry that answers ----------

  predicate FirstAt(wanted: BuildImageConfig, bucket: seq<CacheValue>, i: int) {
    && 0 <= i < |bucket|
    && Acceptable(wanted, bucket[i])
    && forall j :: 0 <= j < i ==> !Acceptable(wanted, bucket[j])
  }

  /** A bucket answers with its first entry whose targets include all wanted ones, and only then. */
  lemma {:induction false} FirstAcceptableIsFirst(wanted: BuildImageConfig, bucket: seq<CacheValue>)
    ensures FirstAcceptable(wanted, bucket).None? <==> forall i :: 0 <= i < |bucket| ==> !Acceptable(wanted, bucket[i])
    ensures forall o :: FirstAcceptable(wanted, bucket) == Some(o) ==>
              exists i :: FirstAt(wanted, bucket, i) && bucket[i].operation == o
  {
    if bucket != [] {
      if Acceptable(wanted, bucket[0]) {
        assert FirstAt(wanted, bucket, 0);
      } else {
        var rest := bucket[1..];
        FirstAcceptableIsFirst(wanted, rest);
        forall o | FirstAcceptable(wanted, bucket) == Some(o)
          ensures exists i :: FirstAt(wanted, bucket, i) && bucket[i].operation == o
        {
          var i :| FirstAt(wanted, rest, i) && rest[i].operation == o;
          forall j | 0 <= j < i + 1
            ensures !Acceptable(wanted, bucket[j])
          {
            assert j > 0 ==> bucket[j] == rest[j - 1];
          }
          assert FirstAt(wanted, bucket, i + 1);
        }
        assert forall i :: 0 < i < |bucket| ==> bucket[i] == rest[i - 1];
      }
    }
  }

  /** A request hits an entry of its own bucket that is acceptable to it. */
  lemma HitEntry(c: CacheState, req: GetRequest) returns (d: Digest, i: int)
    requires Hit(c, req).Some?
    ensures var main := MainAction(req);
            && main.Some? && ActionDigest(main.value) == Some(d)
            && Holds(c, d, i, Hit(c, req).value)
            && Acceptable(BuildConfig(main.value), c.data[d][i])
  {
    var main := MainAction(req).value;
    d := ActionDigest(main).value;
    FirstAcceptableIsFirst(BuildConfig(main), Bucket(c, d));
    i :| FirstAt(BuildConfig(main), Bucket(c, d), i) && Bucket(c, d)[i].operation == Hit(c, req).value;
  }

  /** An entry that covers a request spares it the build: the state stays as it is. */
  lemma CoveredStartsNoBuild(w: World, req: GetRequest, d: Digest, i: int)
    requires !req.skipCaching && At(w.cache, d, i)
    requires var main := MainAction(req);
             main.Some? && ActionDigest(main.value) == Some(d)
             && Acceptable(BuildConfig(main.value), w.cache.data[d][i])
    ensures Hit(w.cache, req).Some? && GetWorld(w, req) == w
  {
    FirstAcceptableIsFirst(BuildConfig(MainAction(req).value), Bucket(w.cache, d));
  }

  // ---------- Hits are stable ----------

  lemma {:induction false} FirstAcceptableGrows(wanted: BuildImageConfig,
                                                bucket: seq<CacheValue>, more: seq<CacheValue>)
    requires FirstAcceptable(wanted, bucket).Some?
    ensures FirstAcceptable(wanted, bucket + more) == FirstAcceptable(wanted, bucket)
  {
    if !Acceptable(wanted, bucket[0]) {
      FirstAcceptableGrows(wanted, bucket[1..], more);
      assert (bucket + more)[1..] == bucket[1..] + more;
    }
  }

  lemma ApplyKeepsLookup(w: World, s: Step, action: Action)
    requires Lookup(w.cache, action).Some?
    ensures Lookup(Apply(w, s).cache, action) == Lookup(w.cache, action)
  {
    if s.Get? && Misses(w.cache, s.req) {
      var d := ActionDigest(action).value;
      var (put, n) := PutAt(w.cache, s.req);
      if d == put {
        FirstAcceptableGrows(BuildConfig(action), Bucket(w.cache, d),
                             [CacheValue(BuildAction(s.req).value, w.nextId + 2)]);
      }
    }
  }

  /** Once a request hits an operation, it hits the same one after every further run. */
  lemma {:induction false} HitStable(s: seq<Step>, t: seq<Step>, req: GetRequest)
    requires Hit(After(s).cache, req).Some?
    ensures Hit(After(s + t).cache, req) == Hit(After(s).cache, req)
    decreases |t|
  {
    if t == [] {
      assert s + t == s;
    } else {
      var n := |t| - 1;
      HitStable(s, t[..n], req);
      assert (s + t)[..|s + t| - 1] == s + t[..n];
      ApplyKeepsLookup(After(s + t[..n]), t[n], MainAction(req).value);
    }
  }

  lemma {:induction false} FirstAcceptableAppend(wanted: BuildImageConfig, bucket: seq<CacheValue>, cv: CacheValue)
    requires FirstAcceptable(wanted, bucket).None?
    ensures FirstAcceptable(wanted, bucket + [cv]) == if Acceptable(wanted, cv) then Some(cv.operation) else None
  {
    if bucket != [] {
      FirstAcceptableAppend(wanted, bucket[1..], cv);
      assert (bucket + [cv])[1..] == bucket[1..] + [cv];
    } else {
      assert [cv][1..] == [];
    }
  }

  /**
   In any state: what a request starts to build serves another that nothing serves yet exactly if
   both ask for actions of one digest and the build's targets include those wanted.
   */
  lemma MissServesIff(w: World, first: GetRequest, second: GetRequest)
    requires Misses(w.cache, first) && MainAction(second).Some? && !second.skipCaching
    requires Hit(w.cache, second).None?
    ensures var cv := CacheValue(BuildAction(first).value, w.nextId + 2);
            Hit(Miss(w, first).cache, second) ==
            if ActionDigest(MainAction(second).value) == ActionDigest(MainAction(first).value)
               && Acceptable(BuildConfig(MainAction(second).value), cv)
            then Some(w.nextId + 2) else None
  {
    var wanted := MainAction(second).value;
    if ActionDigest(wanted).Some? {
      FirstAcceptableAppend(BuildConfig(wanted), Bucket(w.cache, ActionDigest(wanted).value),
                            CacheValue(BuildAction(first).value, w.nextId + 2));
    }
  }

  // ---------- Hits are sound ----------

  /** The entry was built from the commit the action asks for. */
  predicate Serves(action: Action, cv: CacheValue) {
    && action.config.BuildImage? && action.config.build.commitPoint.Some?
    && cv.action.config.BuildImage? && cv.action.config.build.commitPoint.Some?
    && var asked, built := action.config.build.commitPoint.value, cv.action.config.build.commitPoint.value;
       asked.branch == built.branch && asked.commitSha == built.commitSha
  }

  predicate ServesIfFiledAt(action: Action, d: Digest, cv: CacheValue) {
    ActionDigest(action) == Some(d) ==> Serves(action, cv)
  }

  ghost predicate EntrySound(c: CacheState, d: Digest, i: int) {
    At(c, d, i) ==> forall action :: ServesIfFiledAt(action, d, c.data[d][i])
  }

  /** No action is looked up in a bucket with an entry built from another commit. */
  ghost predicate Sound(c: CacheState) {
    forall d, i :: EntrySound(c, d, i)
  }

  /**
   A miss keeps the cache sound exactly when the action asked for and the build action of its
   graph name the same commit; the build action is what gets built, whatever was asked for.
   */
  lemma MissSoundIff(w: World, req: GetRequest)
    requires Sound(w.cache) && Misses(w.cache, req)
    ensures Sound(Miss(w, req).cache) <==>
            Serves(MainAction(req).value, CacheValue(BuildAction(req).value, w.nextId + 2))
  {
    var c' := Miss(w, req).cache;
    var main := MainAction(req).value;
    var (put, n) := PutAt(w.cache, req);
    var cv := CacheValue(BuildAction(req).value, w.nextId + 2);
    MissAt(w, req, put, n);
    if Sound(c') {
      assert EntrySound(c', put, n);
      assert ServesIfFiledAt(main, put, cv);
    }
    if Serves(main, cv) {
      forall d, i
        ensures EntrySound(c', d, i)
      {
        MissAt(w, req, d, i);
        assert EntrySound(w.cache, d, i);
        if At(c', d, i) {
          forall action
            ensures ServesIfFiledAt(action, d, c'.data[d][i])
          {
            assert At(w.cache, d, i) ==> ServesIfFiledAt(action, d, w.cache.data[d][i]);
          }
        }
      }
    }
  }

  /** If the request can start a build, the action it asks for and the build action name one commit. */
  predicate OneCommit(req: GetRequest) {
    var main := MainAction(req);
    main.Some? && ActionDigest(main.value).Some? && BuildTarget(req).Some? ==>
      Serves(main.value, CacheValue(BuildAction(req).value, 0))
  }

  /** A step of the run started a build for a request that names two commits. */
  predicate MisfiledAt(steps: seq<Step>, i: int) {
    && 0 <= i < |steps| && steps[i].Get?
    && Misses(After(steps[..i]).cache, steps[i].req) && !OneCommit(steps[i].req)
  }

  lemma MissUnsoundStays(w: World, req: GetRequest)
    requires Misses(w.cache, req) && Sound(Miss(w, req).cache)
    ensures Sound(w.cache)
  {
    var c' := Miss(w, req).cache;
    forall d, i
      ensures EntrySound(w.cache, d, i)
    {
      MissAt(w, req, d, i);
      assert EntrySound(c', d, i);
      if At(w.cache, d, i) {
        forall action
          ensures ServesIfFiledAt(action, d, w.cache.data[d][i])
        {
          assert ServesIfFiledAt(action, d, c'.data[d][i]);
        }
      }
    }
  }

  lemma StepSoundIff(w: World, s: Step)
    ensures Sound(Apply(w, s).cache) <==>
            Sound(w.cache) && (s.Get? && Misses(w.cache, s.req) ==> OneCommit(s.req))
  {
    if s.Get? && Misses(w.cache, s.req) {
      if Sound(Apply(w, s).cache) {
        MissUnsoundStays(w, s.req);
      }
      if Sound(w.cache) {
        MissSoundIff(w, s.req);
      }
    } else {
      forall d, i
        ensures EntrySound(Apply(w, s).cache, d, i) <==> EntrySound(w.cache, d, i)
      {
      }
    }
  }

  /** After a run the cache is sound exactly if no build was started for a request naming two commits. */
  lemma {:induction false} RunSoundIff(steps: seq<Step>)
    ensures Sound(After(steps).cache) <==> !exists i :: MisfiledAt(steps, i)
    decreases |steps|
  {
    if steps == [] {
      forall d, i
        ensures EntrySound(INIT.cache, d, i)
      {
        assert !At(INIT.cache, d, i);
      }
    } else {
      var n := |steps| - 1;
      var before := steps[..n];
      RunSoundIff(before);
      StepSoundIff(After(before), steps[n]);
      forall i | 0 <= i < n
        ensures MisfiledAt(before, i) <==> MisfiledAt(steps, i)
      {
        assert before[..i] == steps[..i];
      }
      if i :| MisfiledAt(before, i) {
        assert MisfiledAt(steps, i);
      }
      if i :| MisfiledAt(steps, i) {
        assert i < n ==> MisfiledAt(before, i);
      }
      if !Sound(After(steps).cache) && Sound(After(before).cache) {
        assert MisfiledAt(steps, n);
      }
    }
  }

  /** The build has all targets of the action. */
  predicate HasTargets(info: BuildInfo, action: Action) {
    forall t :: t in BuildConfig(action).bazelTargets ==> t in info.targets
  }

  /** The build's record meets the request: its commit, and every target it wants. */
  predicate Meets(info: BuildInfo, action: Action) {
    && action.config.BuildImage? && action.config.build.commitPoint.Some?
    && info.branch == action.config.build.commitPoint.value.branch
    && info.commitSha == action.config.build.commitPoint.value.commitSha
    && HasTargets(info, action)
  }

  /** The step starts a build that is filed in this bucket. */
  predicate Fills(w: World, s: Step, d: Digest) {
    s.Get? && Misses(w.cache, s.req) && PutAt(w.cache, s.req).0 == d
  }

  predicate FillsAt(steps: seq<Step>, k: int, d: Digest) {
    0 <= k < |steps| && Fills(After(steps[..k]), steps[k], d)
  }

  /** The step filed the entry, for a request asking for an action of that bucket. */
  predicate FiledAt(steps: seq<Step>, k: int, d: Digest, cv: CacheValue) {
    && FillsAt(steps, k, d)
    && cv == CacheValue(BuildAction(steps[k].req).value, After(steps[..k]).nextId + 2)
  }

  predicate StartedAt(steps: seq<Step>, k: int) {
    0 <= k < |steps| && steps[k].Get? && Misses(After(steps[..k]).cache, steps[k].req)
  }

  /** The step filed the operation: it started the build behind it. */
  predicate FiledBy(steps: seq<Step>, k: int, o: Id) {
    StartedAt(steps, k) && o == After(steps[..k]).nextId + 2
  }

  lemma {:induction false} EntryFiled(steps: seq<Step>, d: Digest, i: int) returns (k: int)
    requires At(After(steps).cache, d, i)
    ensures FiledAt(steps, k, d, After(steps).cache.data[d][i])
    decreases |steps|
  {
    if steps == [] {
      assert false;
    } else {
      var n := |steps| - 1;
      var before := steps[..n];
      var w, s := After(before), steps[n];
      if s.Get? && Misses(w.cache, s.req) {
        MissAt(w, s.req, d, i);
      }
      if At(w.cache, d, i) {
        k := EntryFiled(before, d, i);
        assert before[..k] == steps[..k];
      } else {
        k := n;
      }
    }
  }

  lemma {:induction false} NextIdGrows(w: World, t: seq<Step>)
    ensures w.nextId <= Run(w, t).nextId
    decreases |t|
  {
    if t != [] {
      NextIdGrows(w, t[..|t| - 1]);
    }
  }

  /** Only one step of a run files an operation. */
  lemma FiledOnce(steps: seq<Step>, k: int, l: int, o: Id)
    requires FiledBy(steps, k, o) && FiledBy(steps, l, o)
    ensures k == l
  {
    if k < l {
      FiledEarlier(steps, k, l);
    } else if l < k {
      FiledEarlier(steps, l, k);
    }
  }

  lemma FiledEarlier(steps: seq<Step>, k: int, l: int)
    requires StartedAt(steps, k) && k < l <= |steps|
    ensures After(steps[..k]).nextId < After(steps[..l]).nextId
  {
    assert steps[..k + 1] == steps[..k] + [steps[k]];
    AfterNext(steps[..k], steps[k]);
    assert steps[..l] == steps[..k + 1] + steps[k + 1..l];
    RunConcat(INIT, steps[..k + 1], steps[k + 1..l]);
    NextIdGrows(After(steps[..k + 1]), steps[k + 1..l]);
  }

  /**
   A build on record, found through an entry of the bucket an action is looked up in, meets the
   action exactly if the request that once started it named one commit and it has all its targets.
   */
  lemma EntryMeetsIff(steps: seq<Step>, d: Digest, i: int, action: Action) returns (k: int)
    requires At(After(steps).cache, d, i) && ActionDigest(action) == Some(d)
    ensures var w := After(steps);
            var o := w.cache.data[d][i].operation;
            && FiledBy(steps, k, o) && o in w.cache.downstream && w.cache.downstream[o] in w.builder.info
            && var info := w.builder.info[w.cache.downstream[o]];
               Meets(info, action) <==> OneCommit(steps[k].req) && HasTargets(info, action)
  {
    AlwaysInv(steps);
    assert EntryRecorded(After(steps), d, i);
    k := EntryFiled(steps, d, i);
    assert ActionDigest(MainAction(steps[k].req).value) == ActionDigest(action);
  }

  /**
   A hit's build, on the builder's record, has the requested commit and branch and all requested
   targets exactly if the request that once started it named one commit.
   */
  lemma HitMeetsIff(steps: seq<Step>, req: GetRequest, o: Id) returns (k: int)
    requires Hit(After(steps).cache, req) == Some(o)
    ensures FiledBy(steps, k, o)
    ensures var w := After(steps);
            && o in w.cache.downstream && w.cache.downstream[o] in w.builder.info
            && (Meets(w.builder.info[w.cache.downstream[o]], MainAction(req).value)
                <==> OneCommit(steps[k].req))
  {
    var d, i := HitEntry(After(steps).cache, req);
    AlwaysInv(steps);
    assert EntryRecorded(After(steps), d, i);
    k := EntryMeetsIff(steps, d, i, MainAction(req).value);
  }

  /**
   With a request that names two commits this fails: its build action is built and filed
   under the commit of the action asked for, and the same request then hits that build.
   */
  lemma TwoCommitsHitWrongBuild() returns (req: GetRequest, o: Id)
    ensures !OneCommit(req)
    ensures var w := After([Get(req)]);
            && Hit(w.cache, req) == Some(o)
            && o in w.cache.downstream && w.cache.downstream[o] in w.builder.info
            && !Meets(w.builder.info[w.cache.downstream[o]], MainAction(req).value)
  {
    var built := BuildImageConfig("eval", "latest", "debian:buster", Some(CommitPoint("", "main", "1", "")), []);
    var asked := built.(commitPoint := Some(CommitPoint("", "main", "2", "")));
    var other := Action("build-image", BuildImage(asked));
    var g := AGraph("g", map["build" := Action("build-image", BuildImage(built)), "x" := other]);
    req := GetRequest(false, Some(g), "g.x");
    assert req.value == g.name + "." + "x" && '.' !in g.name;
    GetActionFinds(g, req.value, other);
    assert Misses(INIT.cache, req);
    var w := Miss(INIT, req);
    AfterOne(Get(req));
    var d := ActionDigest(other).value;
    assert Bucket(w.cache, d) == [CacheValue(g.actions["build"], 2)];
    assert Acceptable(asked, Bucket(w.cache, d)[0]);
    o := 2;
  }

  // ---------- No redundant builds ----------

  predicate NotCovered(c: CacheState, d: Digest, i: int, j: int) {
    0 <= i < j && At(c, d, j) ==> !Acceptable(BuildConfig(c.data[d][j].action), c.data[d][i])
  }

  /** No entry's targets are all among those of an earlier entry of its bucket. */
  ghost predicate NoRedundancy(c: CacheState) {
    forall d, i, j :: NotCovered(c, d, i, j)
  }

  /** A miss keeps it so exactly when no entry of the bucket covers what it goes on to build. */
  lemma MissNoRedundancyIff(w: World, req: GetRequest)
    requires NoRedundancy(w.cache) && Misses(w.cache, req)
    ensures NoRedundancy(Miss(w, req).cache) <==>
            FirstAcceptable(BuildConfig(BuildAction(req).value),
                            Bucket(w.cache, PutAt(w.cache, req).0)).None?
  {
    var c' := Miss(w, req).cache;
    var (put, n) := PutAt(w.cache, req);
    var built := BuildConfig(BuildAction(req).value);
    FirstAcceptableIsFirst(built, Bucket(w.cache, put));
    MissAt(w, req, put, n);
    if NoRedundancy(c') {
      forall i | 0 <= i < n
        ensures !Acceptable(built, Bucket(w.cache, put)[i])
      {
        assert NotCovered(c', put, i, n);
        MissAt(w, req, put, i);
      }
    }
    if FirstAcceptable(built, Bucket(w.cache, put)).None? {
      forall d, i, j
        ensures NotCovered(c', d, i, j)
      {
        MissAt(w, req, d, i);
        MissAt(w, req, d, j);
        assert NotCovered(w.cache, d, i, j);
      }
    }
  }

  /** The request uses the cache and asks for what a miss would build. */
  predicate Ordinary(req: GetRequest) {
    !req.skipCaching && BuildAction(req).Some?
    && MainAction(req) == Some(BuildAction(req).value)
  }

  /** A miss of the request would build targets that an entry of its bucket covers. */
  predicate Redundant(c: CacheState, req: GetRequest)
    requires Misses(c, req)
  {
    FirstAcceptable(BuildConfig(BuildAction(req).value), Bucket(c, PutAt(c, req).0)).Some?
  }

  predicate RedundantStep(w: World, s: Step) {
    s.Get? && Misses(w.cache, s.req) && Redundant(w.cache, s.req)
  }

  predicate RedundantAt(steps: seq<Step>, k: int) {
    0 <= k < |steps| && RedundantStep(After(steps[..k]), steps[k])
  }

  lemma MissRedundancyStays(w: World, req: GetRequest)
    requires Misses(w.cache, req) && NoRedundancy(Miss(w, req).cache)
    ensures NoRedundancy(w.cache)
  {
    var c' := Miss(w, req).cache;
    forall d, i, j
      ensures NotCovered(w.cache, d, i, j)
    {
      MissAt(w, req, d, i);
      MissAt(w, req, d, j);
      assert NotCovered(c', d, i, j);
    }
  }

  lemma StepNoRedundancyIff(w: World, s: Step)
    ensures NoRedundancy(Apply(w, s).cache) <==>
            NoRedundancy(w.cache) && !RedundantStep(w, s)
  {
    if s.Get? && Misses(w.cache, s.req) {
      if NoRedundancy(Apply(w, s).cache) {
        MissRedundancyStays(w, s.req);
      }
      if NoRedundancy(w.cache) {
        MissNoRedundancyIff(w, s.req);
      }
    } else {
      forall d, i, j
        ensures NotCovered(Apply(w, s).cache, d, i, j) <==> NotCovered(w.cache, d, i, j)
      {
      }
    }
  }

  /** After a run no entry is covered by an earlier one exactly if no such build was ever started. */
  lemma {:induction false} NoRedundancyIff(steps: seq<Step>)
    ensures NoRedundancy(After(steps).cache) <==> !exists k :: RedundantAt(steps, k)
    decreases |steps|
  {
    if steps == [] {
      forall d, i, j
        ensures NotCovered(INIT.cache, d, i, j)
      {
        assert !At(INIT.cache, d, j);
      }
    } else {
      var n := |steps| - 1;
      var before := steps[..n];
      NoRedundancyIff(before);
      StepNoRedundancyIff(After(before), steps[n]);
      RedundantOneMore(steps);
    }
  }

  lemma RedundantOneMore(steps: seq<Step>)
    requires steps != []
    ensures var n := |steps| - 1;
            (exists k :: RedundantAt(steps, k)) <==>
            (exists k :: RedundantAt(steps[..n], k)) || RedundantStep(After(steps[..n]), steps[n])
  {
    var n := |steps| - 1;
    forall k | 0 <= k < n
      ensures RedundantAt(steps[..n], k) <==> RedundantAt(steps, k)
    {
      assert steps[..n][..k] == steps[..k];
    }
    if k :| RedundantAt(steps[..n], k) {
      assert RedundantAt(steps, k);
    }
    if RedundantStep(After(steps[..n]), steps[n]) {
      assert RedundantAt(steps, n);
    }
  }

  /** Requests that use the cache and ask for the build action never start such a build. */
  lemma NoRedundantBuilds(steps: seq<Step>)
    requires forall i :: 0 <= i < |steps| && steps[i].Get? ==> Ordinary(steps[i].req)
    ensures NoRedundancy(After(steps).cache)
  {
    NoRedundancyIff(steps);
    assert forall k :: !RedundantAt(steps, k);
  }

  /** Nor do they ever file a build under another commit than its own. */
  lemma OrdinaryIsSound(steps: seq<Step>)
    requires forall i :: 0 <= i < |steps| && steps[i].Get? ==> Ordinary(steps[i].req)
    ensures Sound(After(steps).cache)
  {
    assert forall i :: !MisfiledAt(steps, i);
    RunSoundIff(steps);
  }

  // ---------- When a request cannot be answered ----------

  /**
   A request crashes the cache exactly when it has no graph, or would start a build and its graph
   has no build action with a commit point; reading a stored answer never does.
   */
  lemma GetCrashesIff(steps: seq<Step>, req: GetRequest)
    ensures var w := After(steps);
            var main := MainAction(req);
            GetReply(w, req).Crashed? <==>
              req.graph.None?
              || (main.Some? && Hit(w.cache, req).None? && ActionDigest(main.value).Some?
                  && ("build" !in req.graph.value.actions
                      || !req.graph.value.actions["build"].config.BuildImage?
                      || req.graph.value.actions["build"].config.build.commitPoint.None?))
  {
    var w := After(steps);
    AlwaysInv(steps);
    if Hit(w.cache, req).Some? {
      assert Answered(w, Hit(w.cache, req).value);
    }
  }

  /** The client's own graph for generated images: it has no build action. */
  const GENERATE_GRAPH := AGraph("generate", map["generate" := Action("generate", Generate(""))])

  const GENERATE_DIGEST := GenerateDigest("")

  lemma StepFillsIff(w: World, s: Step, d: Digest)
    ensures Bucket(Apply(w, s).cache, d) != [] <==> Bucket(w.cache, d) != [] || Fills(w, s, d)
  {
  }

  /** A bucket holds something exactly if some step of the run filed a build in it. */
  lemma {:induction false} BucketFilledIff(steps: seq<Step>, d: Digest)
    ensures Bucket(After(steps).cache, d) != [] <==> exists k :: FillsAt(steps, k, d)
    decreases |steps|
  {
    if steps != [] {
      var n := |steps| - 1;
      var before := steps[..n];
      BucketFilledIff(before, d);
      StepFillsIff(After(before), steps[n], d);
      FillsOneMore(steps, d);
    }
  }

  lemma FillsOneMore(steps: seq<Step>, d: Digest)
    requires steps != []
    ensures var n := |steps| - 1;
            (exists k :: FillsAt(steps, k, d)) <==>
            (exists k :: FillsAt(steps[..n], k, d)) || Fills(After(steps[..n]), steps[n], d)
  {
    var n := |steps| - 1;
    forall k | 0 <= k < n
      ensures FillsAt(steps[..n], k, d) <==> FillsAt(steps, k, d)
    {
      assert steps[..n][..k] == steps[..k];
    }
    if k :| FillsAt(steps[..n], k, d) {
      assert FillsAt(steps, k, d);
    }
    if Fills(After(steps[..n]), steps[n], d) {
      assert FillsAt(steps, n, d);
    }
  }

  /**
   A request for that graph's action crashes the cache unless it uses the cache and a build has
   been started for a request, with another graph, for an action of the same digest.
   */
  lemma GenerateCrashesIff(steps: seq<Step>, req: GetRequest)
    requires req.graph == Some(GENERATE_GRAPH) && req.value == "generate.generate"
    ensures GetReply(After(steps), req).Crashed? <==>
            req.skipCaching || !exists k :: FillsAt(steps, k, GENERATE_DIGEST)
  {
    var w := After(steps);
    GenerateAction(req);
    BucketFilledIff(steps, GENERATE_DIGEST);
    GetCrashesIff(steps, req);
    AlwaysInv(steps);
    AnyServes(w, MainAction(req).value, GENERATE_DIGEST);
  }

  lemma GenerateAction(req: GetRequest)
    requires req.graph == Some(GENERATE_GRAPH) && req.value == "generate.generate"
    ensures MainAction(req) == Some(Action("generate", Generate("")))
    ensures ActionDigest(MainAction(req).value) == Some(GENERATE_DIGEST) && BuildTarget(req).None?
  {
    assert req.value == GENERATE_GRAPH.name + "." + "generate" && '.' !in GENERATE_GRAPH.name;
    GetActionFinds(GENERATE_GRAPH, req.value, GENERATE_GRAPH.actions["generate"]);
  }

  /** An action without targets is served by whatever its bucket holds. */
  lemma AnyServes(w: World, action: Action, d: Digest)
    requires Entries(w) && ActionDigest(action) == Some(d) && BuildConfig(action).bazelTargets == []
    ensures Lookup(w.cache, action).Some? <==> Bucket(w.cache, d) != []
  {
    var bucket := Bucket(w.cache, d);
    if bucket != [] {
      assert EntryRecorded(w, d, 0) && Acceptable(BuildConfig(action), bucket[0]);
    }
  }
}
