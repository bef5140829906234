/** The cache service over its maps, with the builder as its backend. */
module Cache {
  import opened Wrappers
  import opened Actions
  import opened Protocol
  import opened Builder
  import opened Replies

  method AreCompatible(wanted: BuildImageConfig, cached: BuildImageConfig) returns (r: bool)
    ensures r == Compatible(wanted, cached)
  {
    for i := 0 to |wanted.bazelTargets|
      invariant forall j :: 0 <= j < i ==> wanted.bazelTargets[j] in cached.bazelTargets
    {
      if wanted.bazelTargets[i] !in cached.bazelTargets {
        return false;
      }
    }
    return true;
  }

  class CacheService {
    const builder: BuilderService
    const ids: IdSource
    var data: map<Digest, seq<CacheValue>>
    var downstream: map<Id, Id>
    var upstream: map<Id, Operation>

    function State(): CacheState
      reads this
    {
      CacheState(data, downstream, upstream)
    }

    function World(): World
      reads this, builder, builder.outside, ids
    {
      Protocol.World(State(), builder.State(), builder.outside.state, ids.next)
    }

    constructor (builder: BuilderService)
      requires builder.State() == INIT.builder && builder.outside.state == INIT.cluster
      requires builder.ids.next == INIT.nextId
      ensures this.builder == builder && ids == builder.ids && World() == INIT
    {
      this.builder := builder;
      ids := builder.ids;
      data, downstream, upstream := map[], map[], map[];
    }

    /** The operation of the first entry in the action's bucket that is acceptable to it. */
    method BackendGet(action: Action) returns (r: Option<Id>)
      ensures r == Lookup(State(), action)
    {
      var d := ActionDigest(action);
      if d.None? {
        return None;
      }
      var wanted := BuildConfig(action);
      if d.value in data {
        var bucket := data[d.value];
        for i := 0 to |bucket|
          invariant FirstAcceptable(wanted, bucket) == FirstAcceptable(wanted, bucket[i..])
        {
          assert bucket[i..][1..] == bucket[i + 1..];
          if bucket[i].action.config.BuildImage? {
            var compatible := AreCompatible(wanted, bucket[i].action.config.build);
            if compatible {
              return Some(bucket[i].operation);
            }
          }
        }
      }
      return None;
    }

    method BackendPut(d: Digest, operation: Id, action: Action)
      modifies this`data
      ensures data == old(data)[d := Bucket(old(State()), d) + [CacheValue(action, operation)]]
    {
      data := data[d := (if d in data then data[d] else []) + [CacheValue(action, operation)]];
    }

    /** Serves the request from an earlier build or starts a new one. */
    method Get(req: GetRequest) returns (reply: Reply)
      requires builder.ids == ids
      modifies this, builder, ids
      ensures World() == GetWorld(old(World()), req)
      ensures reply == GetReply(old(World()), req)
      ensures World() != old(World()) ==>
                && Starts(old(World()), World(), req)
                && reply == Replied(Operation(old(ids.next) + 2, false, GetResponse(None)))
    {
      GetStarts(World(), req);
      if req.graph.None? {
        return Crashed;
      }
      var graph := req.graph.value;
      var mainAction := GetAction(graph, req.value);
      if mainAction.None? {
        return Failed;
      }
      if !req.skipCaching {
        var cached := BackendGet(mainAction.value);
        if cached.Some? {
          if cached.value in upstream && upstream[cached.value].done {
            match upstream[cached.value].result {
              case BuildResponse(image) =>
                return Replied(Operation(cached.value, true, GetResponse(Some(image))));
              case _ =>
                return Crashed;
            }
          }
          return Replied(Operation(cached.value, true, GetResponse(None)));
        }
      }
      var digest := ActionDigest(mainAction.value);
      if digest.None? {
        return Failed;
      }
      if "build" !in graph.actions {
        return Crashed;
      }
      var config := BuildConfig(graph.actions["build"]);
      if config.commitPoint.None? {
        return Crashed;
      }
      var id, done := StartBuild(digest.value, graph.actions["build"], config.commitPoint.value);
      return Replied(Operation(id, done, GetResponse(None)));
    }

    /** Has the builder start a build of the action and files a fresh operation for it. */
    method StartBuild(d: Digest, action: Action, at: CommitPoint) returns (id: Id, done: bool)
      requires builder.ids == ids
      modifies this, builder, ids
      ensures var w, targets := old(World()), BuildConfig(action).bazelTargets;
              && id == w.nextId + 2 && !done
              && World() == Protocol.World(
                              Put(w.cache, d, id, w.nextId + 1, action),
                              Protocol.Build(w.builder, w.nextId, w.nextId + 1, at.branch, at.commitSha, targets),
                              w.cluster, w.nextId + 3)
    {
      var build := builder.Build(at.branch, at.commitSha, BuildConfig(action).bazelTargets);
      id := ids.Fresh();
      downstream := downstream[id := build.name];
      BackendPut(d, id, action);
      done := build.done;
    }

    /** The state of an operation: as stored if that is done, else as the builder now has it. */
    method GetOperation(name: Id, answers: bool) returns (operation: Operation)
      modifies this`upstream
      ensures World() == PollWorld(old(World()), name, answers)
      ensures operation == PollReply(old(World()), name, answers)
      ensures name !in old(upstream) && name !in downstream ==> operation == Operation(name, true, NoPayload)
      ensures (name in old(upstream) ==> !old(upstream)[name].done)
              && name in downstream && downstream[name] !in builder.buildDone ==>
                operation == Operation(name, false, GetResponse(Some(Image("", None, ""))))
    {
      if name in upstream && upstream[name].done {
        return upstream[name];
      }
      if name in downstream {
        var answer := builder.GetOperation(downstream[name], answers);
        upstream := upstream[name := answer];
        var image := NO_IMAGE;
        if answer.done {
          image := answer.result.image;
        }
        return Operation(name, answer.done, GetResponse(Some(image)));
      }
      return Operation(name, true, NoPayload);
    }
  }
}
