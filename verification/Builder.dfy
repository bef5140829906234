/** The builder service: its records, its task queue and the workers that take from it. */
module Builder {
  import opened Wrappers
  import P = Protocol
  import opened Protocol
  import opened Invariants

  class IdSource {
    var next: nat

    constructor ()
      ensures next == 0
    {
      next := 0;
    }

    method Fresh() returns (id: Id)
      modifies this
      ensures id == old(next) && next == id + 1
    {
      id := next;
      next := next + 1;
    }
  }

  /** The cluster and the registry, as far as the builder talks to them. */
  class Outside {
    var state: ClusterState

    constructor ()
      ensures state == INIT.cluster
    {
      state := INIT.cluster;
    }
  }

  class BuilderService {
    const ids: IdSource
    const outside: Outside
    var buildInfo: map<Id, BuildInfo>
    var buildDone: map<Id, bool>
    var queue: seq<Task>
    var running: map<Id, Watch>
    var abandoned: set<Id>

    function State(): BuilderState
      reads this
    {
      BuilderState(buildInfo, buildDone, queue, running, abandoned)
    }

    /** The builder with its cluster, without any cache. */
    function Alone(): World
      reads this, outside, ids
    {
      World(INIT.cache, State(), outside.state, ids.next)
    }

    /** Every build is in exactly one stage, jobs and images match the records, and ids are fresh. */
    ghost predicate Valid()
      reads this, outside, ids
    {
      Staged(State()) && Jobs(Alone()) && forall k :: k in buildInfo ==> k < ids.next
    }

    constructor (ids: IdSource, outside: Outside)
      requires outside.state == INIT.cluster
      ensures this.ids == ids && this.outside == outside && State() == INIT.builder && Valid()
    {
      this.ids := ids;
      this.outside := outside;
      buildInfo, buildDone, queue, running, abandoned := map[], map[], [], map[], {};
      new;
      InitInv();
      SameJobs(INIT, Alone());
    }

    /** The build is new, on record as asked for, and waits in the queue behind all others. */
    method Build(branch: string, commit: string, targets: seq<string>) returns (operation: Operation)
      modifies this, ids
      ensures State() == P.Build(old(State()), old(ids.next), old(ids.next) + 1, branch, commit, targets)
      ensures ids.next == old(ids.next) + 2
      ensures operation == Operation(old(ids.next) + 1, false, NoPayload)
      ensures old(Valid()) ==>
                && Valid() && operation.name !in old(buildInfo)
                && Queued(State(), operation.name) && !Taken(State(), operation.name)
                && outside.state == old(outside.state) && operation.name !in outside.state.jobs
    {
      var imageTag := ids.Fresh();
      var buildId := ids.Fresh();
      ghost var before, alone := old(State()), old(Alone());
      buildInfo := buildInfo[buildId := BuildInfo(branch, commit, targets, "eval", Some(imageTag))];
      queue := queue + [Task(buildId, branch, commit, targets, imageTag)];
      operation := Operation(buildId, false, NoPayload);
      if old(Valid()) {
        BuildStaged(before, imageTag, buildId, branch, commit, targets);
        BuildJobs(alone, Alone(), buildId, branch, commit, targets);
        assert QueuedAt(State(), |before.queue|, buildId);
        assert Waiting(State(), |before.queue|) && JobMatches(alone, buildId);
      }
    }

    /**
     Done exactly if the build is on record as done, with the recorded image; the image has a
     digest exactly if the registry answers and the build's own job pushed it.
     */
    method GetOperation(name: Id, answers: bool) returns (operation: Operation)
      ensures operation == BuilderPoll(State(), outside.state, name, answers)
      ensures operation.done <==> name in buildDone && buildDone[name]
      ensures !operation.done ==> operation == Operation(name, false, NoPayload)
      ensures operation.done && name !in buildInfo ==> operation.result == BuildResponse(Image("", None, ""))
      ensures Valid() && operation.done ==>
                && name in buildInfo && operation.result.BuildResponse?
                && operation.result.image.name == buildInfo[name].imageName
                && operation.result.image.tag == buildInfo[name].imageTag
                && (operation.result.image.digest != "" <==> answers && JobSucceeded(outside.state, name))
    {
      if name in buildDone && buildDone[name] {
        var info := if name in buildInfo then buildInfo[name] else NO_INFO;
        var digest := DigestOf(outside.state, info.imageTag, answers);
        operation := Operation(name, true, BuildResponse(Image(info.imageName, info.imageTag, digest)));
        if Valid() {
          assert Settled(State(), name);
          DigestIffPushed(Alone(), name, answers);
        }
      } else {
        operation := Operation(name, false, NoPayload);
      }
    }

    /**
     The queue's server hands the first task to a free worker. The job created is active and
     carries what the build's record says; every other build stays in its stage.
     */
    method HandleBuildTask() returns (started: Option<Id>)
      modifies this, outside
      ensures Protocol.World(INIT.cache, State(), outside.state, ids.next) == StartWorld(old(Alone()))
      ensures started.Some? <==> old(queue) != [] && |old(running)| < 2
      ensures old(Valid()) ==>
                && Valid()
                && (started.Some? ==>
                      var k := started.value;
                      && old(QueuedAt(State(), 0, k)) && k !in old(outside.state.jobs)
                      && k in running && running[k].deletions == {} && JobActive(outside.state, k)
                      && JobMatches(Alone(), k))
                && (forall k: Id :: started != Some(k) ==> (Taken(State(), k) <==> old(Taken(State(), k))))
    {
      started := None;
      ghost var alone := Alone();
      if queue != [] && |running| < CONCURRENCY {
        var t := queue[0];
        queue := queue[1..];
        outside.state := CreateJob(outside.state, t);
        running := running[t.buildId := Watch(t, {})];
        started := Some(t.buildId);
        if old(Valid()) {
          StartStaged(alone.builder);
          StartJobs(alone);
          assert Waiting(alone.builder, 0) && JobMatches(alone, t.buildId) && JobMatches(Alone(), t.buildId);
          assert QueuedAt(alone.builder, 0, t.buildId);
        }
      }
    }

    /**
     What a worker does on an event of its watch. A build comes to be recorded as done exactly
     if the watch is over in time or by the deletion of a job, any job, with the pods listed.
     */
    method OnJobEvent(buildId: Id, event: WatchEvent, podsListed: bool)
      modifies this
      ensures State() == OnEvent(old(State()), buildId, event, podsListed)
      ensures old(Valid()) ==>
                && Valid()
                && (forall k :: BuildDone(State(), k) <==>
                      old(BuildDone(State(), k))
                      || (k == buildId && old(Heard(State(), k, event))
                          && (event.Closed? || (event.Deleted? && podsListed))))
                && (forall k :: Taken(State(), k) <==> old(Taken(State(), k)))
    {
      ghost var alone := Alone();
      if buildId in running && (event.Deleted? ==> event.job in running[buildId].deletions) {
        if !event.Closed? {
          if !podsListed {
            running := running - {buildId};
            abandoned := abandoned + {buildId};
            EventKeepsValid(alone, State(), buildId);
            return;
          }
          if !event.Deleted? {
            return;
          }
        }
        running := running - {buildId};
        buildDone := buildDone[buildId := true];
        EventKeepsValid(alone, State(), buildId);
      }
    }
  }

  lemma EventKeepsValid(w: World, b': BuilderState, k: Id)
    requires Ends(w.builder, b', k)
    ensures Staged(w.builder) && Jobs(w) ==> Staged(b') && Jobs(w.(builder := b')) && k !in w.builder.done
  {
    if Staged(w.builder) && Jobs(w) {
      EndStaged(w.builder, b', k);
      EndJobs(w, b', k);
      assert Running(w.builder, k);
    }
  }
}
