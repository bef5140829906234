/**
 The state of the cache and builder services and their atomic steps. The cache answers
 requests for an action's value from earlier builds where it can and otherwise has the
 builder start one; clients then poll the operation they were given.
 */
module Protocol {
  import opened Wrappers
  import opened Strings
  import opened Actions

  /** UUIDs: a source that never repeats. */
  type Id = nat

  // ---------- Messages ----------

  /** The image fields of a response; the tag is None where the text is empty. */
  datatype Image = Image(name: string, tag: Option<Id>, digest: string)

  const NO_IMAGE := Image("", None, "")

  /** What an operation carries; unpacking one kind as another fails. */
  datatype Payload =
    | NoPayload
    | BuildResponse(image: Image)
    | GetResponse(value: Option<Image>)

  datatype Operation = Operation(name: Id, done: bool, result: Payload)

  /** The graph is missing if the request's context is, or has none. */
  datatype GetRequest = GetRequest(skipCaching: bool, graph: Option<AGraph>, value: string)

  /** The action the request asks for. */
  function MainAction(req: GetRequest): Option<Action> {
    if req.graph.None? then None else GetAction(req.graph.value, req.value)
  }

  /** The action a miss on the request builds. */
  function BuildAction(req: GetRequest): Option<Action> {
    if req.graph.Some? && "build" in req.graph.value.actions then Some(req.graph.value.actions["build"]) else None
  }

  /** A crash ends the serving process: a nil dereference. */
  datatype Reply = Failed | Crashed | Replied(operation: Operation)

  // ---------- Builder ----------

  datatype BuildInfo = BuildInfo(branch: string, commitSha: string, targets: seq<string>,
                                 imageName: string, imageTag: Option<Id>)

  const NO_INFO := BuildInfo("", "", [], "", None)

  datatype Task = Task(buildId: Id, branch: string, commitSha: string, targets: seq<string>, imageTag: Id)

  /** A worker's watch over the jobs of the namespace: the deletions it has yet to hear of. */
  datatype Watch = Watch(task: Task, deletions: set<Id>)

  const CONCURRENCY := 2

  /**
   done is the record of builds taken to be finished; running and abandoned are what the
   workers are about: tasks taken from the queue, and tasks given up without a record.
   */
  datatype BuilderState = BuilderState(
    info: map<Id, BuildInfo>, done: map<Id, bool>, queue: seq<Task>,
    running: map<Id, Watch>, abandoned: set<Id>)

  function Build(b: BuilderState, tag: Id, buildId: Id, branch: string, commit: string, targets: seq<string>)
    : BuilderState
  {
    b.(info := b.info[buildId := BuildInfo(branch, commit, targets, "eval", Some(tag))],
       queue := b.queue + [Task(buildId, branch, commit, targets, tag)])
  }

  predicate BuildDone(b: BuilderState, buildId: Id) {
    buildId in b.done && b.done[buildId]
  }

  predicate CanStart(b: BuilderState) {
    b.queue != [] && |b.running| < CONCURRENCY
  }

  /** A free worker takes the first task of the queue and watches from there on. */
  function StartTask(b: BuilderState): BuilderState {
    if !CanStart(b) then b
    else b.(queue := b.queue[1..], running := b.running[b.queue[0].buildId := Watch(b.queue[0], {})])
  }

  function FinishTask(b: BuilderState, buildId: Id): BuilderState {
    b.(running := b.running - {buildId}, done := b.done[buildId := true])
  }

  /** The worker gives up watching: the task is over, but no build is recorded as done. */
  function AbandonTask(b: BuilderState, buildId: Id): BuilderState {
    b.(running := b.running - {buildId}, abandoned := b.abandoned + {buildId})
  }

  /** What a watch yields: the deletion of some job, any other change, or the end of its time. */
  datatype WatchEvent = Deleted(job: Id) | Changed | Closed

  /** Only deletions since the watch began are heard of. */
  predicate Heard(b: BuilderState, buildId: Id, event: WatchEvent) {
    buildId in b.running && (event.Deleted? ==> event.job in b.running[buildId].deletions)
  }

  /**
   On any event the worker first lists its pods and gives up if it cannot. A deletion, of
   whichever job, ends the watch, and so does its time; the build is then recorded as done.
   */
  function OnEvent(b: BuilderState, buildId: Id, event: WatchEvent, podsListed: bool): BuilderState {
    if !Heard(b, buildId, event) then b
    else if event.Closed? then FinishTask(b, buildId)
    else if !podsListed then AbandonTask(b, buildId)
    else if event.Deleted? then FinishTask(b, buildId)
    else b
  }

  // ---------- Cluster and registry ----------

  /** What the image-building job is given: its label, what to build, from where, and under which tag. */
  datatype JobSpec = JobSpec(buildId: Id, branch: string, commitSha: string, targets: string, imageTag: Id)

  function BuildJobSpec(t: Task): JobSpec {
    JobSpec(t.buildId, t.branch, t.commitSha, Join(t.targets, ' '), t.imageTag)
  }

  datatype JobStatus = Active | Over(succeeded: bool)

  /** The jobs created, how they stand, those deleted since, and the digests of the images pushed. */
  datatype ClusterState = ClusterState(
    jobs: map<Id, JobSpec>, status: map<Id, JobStatus>, deleted: set<Id>, registry: map<Id, string>)

  function CreateJob(c: ClusterState, t: Task): ClusterState {
    c.(jobs := c.jobs[t.buildId := BuildJobSpec(t)], status := c.status[t.buildId := Active])
  }

  predicate JobActive(c: ClusterState, k: Id) {
    k in c.status && c.status[k] == Active
  }

  predicate JobOver(c: ClusterState, k: Id) {
    k in c.status && c.status[k].Over?
  }

  predicate JobSucceeded(c: ClusterState, k: Id) {
    k in c.status && c.status[k] == Over(true)
  }

  /** An active job ends, having pushed an image with this digest, or none if it is empty. */
  function EndJob(c: ClusterState, k: Id, digest: string): ClusterState {
    if !JobActive(c, k) || k !in c.jobs then c
    else if digest == "" then c.(status := c.status[k := Over(false)])
    else c.(status := c.status[k := Over(true)], registry := c.registry[c.jobs[k].imageTag := digest])
  }

  /** Jobs are deleted some time after they are over. */
  predicate CanDelete(c: ClusterState, k: Id) {
    JobOver(c, k) && k !in c.deleted
  }

  /** Every worker watching at the time will hear of it. */
  function Announce(b: BuilderState, k: Id): BuilderState {
    b.(running := map m | m in b.running :: Watch(b.running[m].task, b.running[m].deletions + {k}))
  }

  /** Somebody else pushes another image under a tag that is there. */
  function Repush(c: ClusterState, tag: Id, digest: string): ClusterState {
    if tag in c.registry && digest != "" then c.(registry := c.registry[tag := digest]) else c
  }

  /** The digest a query for a tag gives: empty if the registry does not answer or has no such image. */
  function DigestOf(c: ClusterState, tag: Option<Id>, answers: bool): string {
    if answers && tag.Some? && tag.value in c.registry then c.registry[tag.value] else ""
  }

  /** The builder's answer to a poll, with the digest the registry gives at this moment. */
  function BuilderPoll(b: BuilderState, c: ClusterState, buildId: Id, answers: bool): Operation {
    if BuildDone(b, buildId) then
      var info := if buildId in b.info then b.info[buildId] else NO_INFO;
      Operation(buildId, true, BuildResponse(Image(info.imageName, info.imageTag, DigestOf(c, info.imageTag, answers))))
    else Operation(buildId, false, NoPayload)
  }

  // ---------- Cache ----------

  datatype CacheValue = CacheValue(action: Action, operation: Id)

  datatype CacheState = CacheState(
    data: map<Digest, seq<CacheValue>>, downstream: map<Id, Id>, upstream: map<Id, Operation>)

  predicate Compatible(wanted: BuildImageConfig, cached: BuildImageConfig) {
    forall t :: t in wanted.bazelTargets ==> t in cached.bazelTargets
  }

  predicate Acceptable(wanted: BuildImageConfig, cv: CacheValue) {
    cv.action.config.BuildImage? && Compatible(wanted, cv.action.config.build)
  }

  /** The operation of the first acceptable entry of a bucket. */
  function FirstAcceptable(wanted: BuildImageConfig, bucket: seq<CacheValue>): Option<Id> {
    if bucket == [] then None
    else if Acceptable(wanted, bucket[0]) then Some(bucket[0].operation)
    else FirstAcceptable(wanted, bucket[1..])
  }

  function Bucket(c: CacheState, d: Digest): seq<CacheValue> {
    if d in c.data then c.data[d] else []
  }

  function Lookup(c: CacheState, action: Action): Option<Id> {
    var d := ActionDigest(action);
    if d.None? then None else FirstAcceptable(BuildConfig(action), Bucket(c, d.value))
  }

  function Put(c: CacheState, d: Digest, operation: Id, buildId: Id, action: Action): CacheState {
    c.(data := c.data[d := Bucket(c, d) + [CacheValue(action, operation)]],
       downstream := c.downstream[operation := buildId])
  }

  // ---------- The services together ----------

  datatype World = World(cache: CacheState, builder: BuilderState, cluster: ClusterState, nextId: nat)

  const INIT := World(CacheState(map[], map[], map[]), BuilderState(map[], map[], [], map[], {}),
                      ClusterState(map[], map[], {}, map[]), 0)

  predicate StoredDone(c: CacheState, operation: Id) {
    operation in c.upstream && c.upstream[operation].done
  }

  /** The reply to a request that an earlier operation serves. */
  function HitReply(c: CacheState, operation: Id): Reply {
    if StoredDone(c, operation) then
      var last := c.upstream[operation].result;
      if last.BuildResponse? then Replied(Operation(operation, true, GetResponse(Some(last.image)))) else Crashed
    else Replied(Operation(operation, true, GetResponse(None)))
  }

  /** The commit point of the build that a miss would start, if it can start one. */
  function BuildTarget(req: GetRequest): Option<CommitPoint> {
    if BuildAction(req).Some? then BuildConfig(BuildAction(req).value).commitPoint else None
  }

  function Hit(c: CacheState, req: GetRequest): Option<Id> {
    var main := MainAction(req);
    if main.Some? && !req.skipCaching then Lookup(c, main.value) else None
  }

  /** Whether a request starts a build. */
  predicate Misses(c: CacheState, req: GetRequest) {
    var main := MainAction(req);
    main.Some? && Hit(c, req).None? && ActionDigest(main.value).Some? && BuildTarget(req).Some?
  }

  function Miss(w: World, req: GetRequest): World
    requires Misses(w.cache, req)
  {
    var d := ActionDigest(MainAction(req).value).value;
    var build := BuildAction(req).value;
    var at := BuildTarget(req).value;
    var tag, buildId, operation := w.nextId, w.nextId + 1, w.nextId + 2;
    World(Put(w.cache, d, operation, buildId, build),
          Build(w.builder, tag, buildId, at.branch, at.commitSha, BuildConfig(build).bazelTargets),
          w.cluster, w.nextId + 3)
  }

  function GetWorld(w: World, req: GetRequest): World {
    if Misses(w.cache, req) then Miss(w, req) else w
  }

  function GetReply(w: World, req: GetRequest): Reply {
    var main := MainAction(req);
    if req.graph.None? then Crashed
    else if main.None? then Failed
    else if Hit(w.cache, req).Some? then HitReply(w.cache, Hit(w.cache, req).value)
    else if ActionDigest(main.value).None? then Failed
    else if BuildTarget(req).None? then Crashed
    else Replied(Operation(w.nextId + 2, false, GetResponse(None)))
  }

  /** Polling an operation asks the builder unless it is stored as done. */
  function PollWorld(w: World, name: Id, answers: bool): World {
    if !StoredDone(w.cache, name) && name in w.cache.downstream then
      var operation := BuilderPoll(w.builder, w.cluster, w.cache.downstream[name], answers);
      w.(cache := w.cache.(upstream := w.cache.upstream[name := operation]))
    else w
  }

  /** A stored operation is returned as the builder gave it; an unknown one counts as done. */
  function PollReply(w: World, name: Id, answers: bool): Operation {
    if StoredDone(w.cache, name) then w.cache.upstream[name]
    else if name in w.cache.downstream then
      var operation := BuilderPoll(w.builder, w.cluster, w.cache.downstream[name], answers);
      var image := if operation.done then operation.result.image else NO_IMAGE;
      Operation(name, operation.done, GetResponse(Some(image)))
    else Operation(name, true, NoPayload)
  }

  function StartWorld(w: World): World {
    if CanStart(w.builder) then
      w.(builder := StartTask(w.builder), cluster := CreateJob(w.cluster, w.builder.queue[0]))
    else w
  }

  function DeleteWorld(w: World, k: Id): World {
    if CanDelete(w.cluster, k) then
      w.(builder := Announce(w.builder, k), cluster := w.cluster.(deleted := w.cluster.deleted + {k}))
    else w
  }

  // ---------- Runs ----------

  /**
   Get and Poll are requests of clients, Start and Event what workers do, JobEnds, JobDeleted
   and Pushed what happens in the cluster and the registry. answers says whether the registry
   can be reached at the time of the poll.
   */
  datatype Step =
    | Get(req: GetRequest)
    | Poll(name: Id, answers: bool)
    | Start
    | Event(buildId: Id, event: WatchEvent, podsListed: bool)
    | JobEnds(job: Id, digest: string)
    | JobDeleted(job: Id)
    | Pushed(tag: Id, digest: string)
    | NewId

  function Apply(w: World, s: Step): World {
    match s
    case Get(req) => GetWorld(w, req)
    case Poll(name, answers) => PollWorld(w, name, answers)
    case Start => StartWorld(w)
    case Event(k, event, podsListed) => w.(builder := OnEvent(w.builder, k, event, podsListed))
    case JobEnds(k, digest) => w.(cluster := EndJob(w.cluster, k, digest))
    case JobDeleted(k) => DeleteWorld(w, k)
    case Pushed(tag, digest) => w.(cluster := Repush(w.cluster, tag, digest))
    case NewId => w.(nextId := w.nextId + 1)
  }

  /** Any interleaving of the steps, taken by any number of clients and workers, from the start. */
  function Run(w: World, steps: seq<Step>): World {
    if steps == [] then w else Apply(Run(w, steps[..|steps| - 1]), steps[|steps| - 1])
  }

  function After(steps: seq<Step>): World {
    Run(INIT, steps)
  }

  lemma AfterOne(s: Step)
    ensures After([s]) == Apply(INIT, s)
  {
    var one := [s];
    assert one[..|one| - 1] == [];
    assert Run(INIT, []) == INIT;
  }

  lemma AfterNext(steps: seq<Step>, s: Step)
    ensures After(steps + [s]) == Apply(After(steps), s)
  {
    var next := steps + [s];
    assert next[..|next| - 1] == steps;
  }

  lemma {:induction false} RunConcat(w: World, s: seq<Step>, t: seq<Step>)
    ensures Run(w, s + t) == Run(Run(w, s), t)
    decreases |t|
  {
    if t == [] {
      assert s + t == s;
    } else {
      var n := |t| - 1;
      RunConcat(w, s, t[..n]);
      assert (s + t)[..|s + t| - 1] == s + t[..n];
    }
  }
}
