/**
 Evaluations in runs: the engine's handlers broken into the single calls they make, with any
 steps of other clients, workers and the cluster in between, and other evaluations too.
 */
module Evaluations {
  import opened Wrappers
  import opened Actions
  import opened Protocol
  import opened Invariants
  import opened Hits
  import opened Answers
  import opened Engine
  import opened Samples
  import opened Endings

  /** A creation under way: the values asked for, and the answers to the first served of them. */
  datatype Asking = Asking(values: seq<string>, skip: bool, graph: Option<AGraph>, served: nat,
                           done: bool, operations: map<string, Operation>)

  /** A poll under way: the rows read at its start, and what the first polled of them said. */
  datatype Polling = Polling(name: Id, known: bool, mine: seq<Row>, polled: nat, done: bool, results: Values)

  /** created remembers each evaluation's requests and their answers; known, whether it was there when read. */
  datatype System = System(world: World, rows: seq<Row>, created: map<Id, Asking>,
                           asking: map<Id, Asking>, polling: map<nat, Polling>, halted: bool)

  datatype Move =
    | Other(step: Step)
    | EvalBegin(values: seq<string>, skip: bool, graph: Option<AGraph>)
    | EvalAsk(id: Id)
    | EvalFile(id: Id, order: seq<string>)
    | PollBegin(handle: nat, name: Id)
    | PollNext(handle: nat, answers: bool)

  function Begin(s: System, values: seq<string>, skip: bool, graph: Option<AGraph>): System {
    s.(world := Apply(s.world, NewId),
       asking := s.asking[s.world.nextId := Asking(values, skip, graph, 0, true, map[])])
  }

  predicate CanAsk(s: System, id: Id) {
    id in s.asking && s.asking[id].served < |s.asking[id].values|
  }

  /** The answer to the next value. */
  function WithAnswer(e: Asking, o: Operation): Asking
    requires e.served < |e.values|
  {
    e.(served := e.served + 1, done := e.done && o.done, operations := e.operations[e.values[e.served] := o])
  }

  /** The next request; a failure ends the creation. */
  function Ask(s: System, id: Id): System
    requires CanAsk(s, id)
  {
    var req := NextRequest(s, id);
    match GetReply(s.world, req)
    case Replied(o) =>
      s.(world := GetWorld(s.world, req), asking := s.asking[id := WithAnswer(s.asking[id], o)])
    case _ => s.(world := GetWorld(s.world, req), asking := s.asking - {id})
  }

  function NewRows(id: Id, operations: map<string, Operation>, order: seq<string>): seq<Row>
    requires forall v :: v in order ==> v in operations
  {
    seq(|order|, i requires 0 <= i < |order| => Row(id, operations[order[i]].name, order[i]))
  }

  /** All answers are in, and order lists their values, each once. */
  predicate CanFile(s: System, id: Id, order: seq<string>) {
    && id in s.asking && s.asking[id].served == |s.asking[id].values|
    && (forall v :: v in order ==> v in s.asking[id].operations)
    && (forall v :: v in s.asking[id].operations ==> v in order)
    && (forall i, j :: 0 <= i < j < |order| ==> order[i] != order[j])
  }

  function File(s: System, id: Id, order: seq<string>): System
    requires CanFile(s, id, order)
  {
    s.(rows := s.rows + NewRows(id, s.asking[id].operations, order),
       created := s.created[id := s.asking[id]], asking := s.asking - {id})
  }

  function Read(s: System, handle: nat, name: Id): System {
    s.(polling := s.polling[handle := Polling(name, name in s.created, RowsOf(s.rows, name), 0, true, map[])])
  }

  predicate CanPoll(s: System, handle: nat) {
    handle in s.polling && s.polling[handle].polled < |s.polling[handle].mine|
  }

  function NextOperation(s: System, handle: nat): Id
    requires CanPoll(s, handle)
  {
    s.polling[handle].mine[s.polling[handle].polled].dependent
  }

  /** The poll of the next row; a done answer that is not the cache's own payload halts the engine. */
  function PollRow(s: System, handle: nat, answers: bool): System
    requires CanPoll(s, handle)
  {
    var p := s.polling[handle];
    var o := NextOperation(s, handle);
    var reply := PollReply(s.world, o, answers);
    var s' := s.(world := PollWorld(s.world, o, answers));
    if !reply.done then s'.(polling := s.polling[handle := p.(polled := p.polled + 1, done := false)])
    else if reply.result.GetResponse? then
      s'.(polling := s.polling[handle := p.(polled := p.polled + 1,
                                            results := p.results[p.mine[p.polled].value := reply.result.value])])
    else s'.(halted := true)
  }

  function Do(s: System, m: Move): System {
    match m
    case Other(step) => s.(world := Apply(s.world, step))
    case EvalBegin(values, skip, graph) => if s.halted then s else Begin(s, values, skip, graph)
    case EvalAsk(id) => if !s.halted && CanAsk(s, id) then Ask(s, id) else s
    case EvalFile(id, order) => if !s.halted && CanFile(s, id, order) then File(s, id, order) else s
    case PollBegin(handle, name) => if s.halted || handle in s.polling then s else Read(s, handle, name)
    case PollNext(handle, answers) => if !s.halted && CanPoll(s, handle) then PollRow(s, handle, answers) else s
  }

  const START := System(INIT, [], map[], map[], map[], false)

  function PlayOn(s: System, moves: seq<Move>): System {
    if moves == [] then s else Do(PlayOn(s, moves[..|moves| - 1]), moves[|moves| - 1])
  }

  /** Any interleaving of moves and steps from the start. */
  function Play(moves: seq<Move>): System {
    PlayOn(START, moves)
  }

  /** The answer to the client that created an evaluation: values only if it is done. */
  function CreationReply(id: Id, e: Asking): EvalReply {
    EvalReplied(id, e.done, if e.done then AnsweredValues(e.operations) else map[])
  }

  function AnsweredValues(operations: map<string, Operation>): Values {
    map v | v in operations && operations[v].result.GetResponse? :: operations[v].result.value
  }

  /** The answer to a poll that has asked for every row. */
  function PollingReply(p: Polling): EvalReply {
    EvalReplied(p.name, p.done, p.results)
  }

  /** A poll that has asked for every row is answered. */
  predicate Complete(s: System, handle: nat) {
    handle in s.polling && s.polling[handle].polled == |s.polling[handle].mine|
  }

  // ---------- What steps keep ----------

  predicate KeptOperation(w: World, w': World, o: Id) {
    && (o in w.cache.downstream ==> o in w'.cache.downstream && w'.cache.downstream[o] == w.cache.downstream[o])
    && (StoredDone(w.cache, o) ==> StoredDone(w'.cache, o))
  }

  predicate KeptBuild(w: World, w': World, k: Id) {
    && (k in w.builder.info ==> k in w'.builder.info && w'.builder.info[k] == w.builder.info[k])
    && (BuildDone(w.builder, k) ==> BuildDone(w'.builder, k))
    && (JobSucceeded(w.cluster, k) ==> JobSucceeded(w'.cluster, k))
    && (k in w.builder.abandoned ==> k in w'.builder.abandoned)
  }

  predicate KeptEntry(w: World, w': World, d: Digest, i: int) {
    At(w.cache, d, i) ==> At(w'.cache, d, i) && w'.cache.data[d][i] == w.cache.data[d][i]
  }

  ghost predicate Later(w: World, w': World) {
    && w.nextId <= w'.nextId
    && (forall o :: KeptOperation(w, w', o))
    && (forall k :: KeptBuild(w, w', k))
    && (forall d, i :: KeptEntry(w, w', d, i))
  }

  lemma ApplyIsLater(w: World, s: Step)
    requires Inv(w)
    ensures Later(w, Apply(w, s))
  {
    forall o
      ensures KeptOperation(w, Apply(w, s), o)
    {
      assert HasBuild(w, o);
    }
    forall k
      ensures KeptBuild(w, Apply(w, s), k)
    {
      assert HasOperation(w, k);
      if k in w.cluster.status {
        StartedIsNew(w, k);
      }
    }
    forall d, i
      ensures KeptEntry(w, Apply(w, s), d, i)
    {
      if s.Get? && Misses(w.cache, s.req) {
        MissAt(w, s.req, d, i);
      }
    }
  }

  // ---------- The invariant ----------

  /**
   An image of the build behind an operation, recorded as done; if it has a digest, the build's
   job succeeded.
   */
  predicate BuiltImage(w: World, o: Id, image: Image) {
    && Built(w, o)
    && var k := w.cache.downstream[o];
       && k in w.builder.info && image.name == w.builder.info[k].imageName && image.tag == w.builder.info[k].imageTag
       && (image.digest != "" ==> JobSucceeded(w.cluster, k))
  }

  predicate RowImageAt(w: World, p: Polling, i: int, v: string, image: Image) {
    0 <= i < p.polled <= |p.mine| && p.mine[i].value == v && BuiltImage(w, p.mine[i].dependent, image)
  }

  /** A value collected is the image of the build behind one of its rows. */
  ghost predicate ResultSound(w: World, p: Polling, v: string) {
    v in p.results ==> p.results[v].Some? && exists i :: RowImageAt(w, p, i, v, p.results[v].value)
  }

  /** As long as the poll is done, every row asked for is built, known to be, and has its value. */
  predicate RowDone(w: World, p: Polling, i: int) {
    0 <= i < p.polled <= |p.mine| && p.done ==>
      Built(w, p.mine[i].dependent) && StoredDone(w.cache, p.mine[i].dependent) && p.mine[i].value in p.results
  }

  ghost predicate Collecting(w: World, p: Polling) {
    && p.polled <= |p.mine| && Linked(w, p.mine)
    && (forall v :: ResultSound(w, p, v))
    && (forall i :: RowDone(w, p, i))
    && (forall v :: ResultAsked(p, v))
  }

  /** Values are collected of the evaluation's own rows only. */
  ghost predicate ResultAsked(p: Polling, v: string) {
    v in p.results ==> ValueIn(p.mine, v)
  }

  ghost predicate PollingOk(s: System, h: nat) {
    h in s.polling ==>
      && Collecting(s.world, s.polling[h])
      && (s.polling[h].known ==>
            s.polling[h].name in s.created && s.polling[h].mine == RowsOf(s.rows, s.polling[h].name))
  }

  /**
   The operation stands in the bucket of the action asked for: in an entry acceptable to it if
   it was answered done, and otherwise in one for the build action of the same graph.
   */
  predicate Serving(c: CacheState, req: GetRequest, d: Digest, i: int, o: Operation) {
    && MainAction(req).Some? && ActionDigest(MainAction(req).value) == Some(d)
    && Holds(c, d, i, o.name)
    && if o.done then Acceptable(BuildConfig(MainAction(req).value), c.data[d][i])
       else BuildAction(req) == Some(c.data[d][i].action)
  }

  /** What an answer to a request says, then and ever after. */
  ghost predicate AnswerKept(w: World, req: GetRequest, o: Operation) {
    && o.name in w.cache.downstream && o.result.GetResponse?
    && (exists d, i :: Serving(w.cache, req, d, i, o))
    && (o.result.value.Some? ==> o.done && BuiltImage(w, o.name, o.result.value.value))
  }

  function RequestFor(e: Asking, v: string): GetRequest {
    GetRequest(e.skip, e.graph, v)
  }

  ghost predicate LinkedValue(w: World, e: Asking, v: string)
    requires e.served <= |e.values|
  {
    && (v in e.operations <==> v in e.values[..e.served])
    && (v in e.operations ==>
          && AnswerKept(w, RequestFor(e, v), e.operations[v])
          && (e.done ==> e.operations[v].done) && (e.skip ==> !e.operations[v].done))
  }

  /** The answers so far are those to the values served, and name operations of the cache. */
  ghost predicate AskingWell(w: World, e: Asking) {
    && e.served <= |e.values| && (e.skip && e.served > 0 ==> !e.done)
    && forall v :: LinkedValue(w, e, v)
  }

  ghost predicate AskingOk(s: System, id: Id) {
    id in s.asking ==>
      AskingWell(s.world, s.asking[id]) && id < s.world.nextId && id !in s.created && RowsOf(s.rows, id) == []
  }

  /** An evaluation's rows are for exactly the values that were answered, with the operations of the answers. */
  ghost predicate RowsAre(mine: seq<Row>, e: Asking) {
    && (forall v :: v in e.operations <==> ValueIn(mine, v))
    && (forall i :: 0 <= i < |mine| ==>
          mine[i].value in e.operations && mine[i].dependent == e.operations[mine[i].value].name)
  }

  ghost predicate CreatedOk(s: System, id: Id) {
    id in s.created ==>
      && id < s.world.nextId && s.created[id].served == |s.created[id].values|
      && AskingWell(s.world, s.created[id]) && RowsAre(RowsOf(s.rows, id), s.created[id])
  }

  ghost predicate SystemInv(s: System) {
    && Inv(s.world) && RowsLinked(s.world, s.rows)
    && (forall id :: AskingOk(s, id))
    && (forall id :: CreatedOk(s, id))
    && (forall h :: PollingOk(s, h))
  }

  // ---------- A step of the services ----------

  lemma CollectingLater(w: World, w': World, p: Polling)
    requires Later(w, w') && Collecting(w, p)
    ensures Collecting(w', p)
  {
    forall v
      ensures ResultSound(w', p, v)
    {
      assert ResultSound(w, p, v);
      if v in p.results {
        var i :| RowImageAt(w, p, i, v, p.results[v].value);
        RowLater(w, w', p.mine[i].dependent);
        assert RowImageAt(w', p, i, v, p.results[v].value);
      }
    }
    forall i
      ensures RowDone(w', p, i)
    {
      assert RowDone(w, p, i);
      if 0 <= i < p.polled {
        RowLater(w, w', p.mine[i].dependent);
      }
    }
    forall i | 0 <= i < |p.mine|
      ensures p.mine[i].dependent in w'.cache.downstream
    {
      RowLater(w, w', p.mine[i].dependent);
    }
  }

  lemma RowLater(w: World, w': World, o: Id)
    requires Later(w, w')
    ensures KeptOperation(w, w', o)
    ensures o in w.cache.downstream ==> KeptBuild(w, w', w.cache.downstream[o])
  {
  }

  lemma RowsLinkedLater(w: World, w': World, rows: seq<Row>)
    requires Later(w, w') && RowsLinked(w, rows)
    ensures RowsLinked(w', rows)
  {
    forall i | 0 <= i < |rows|
      ensures RowLinked(w', rows[i])
    {
      assert RowLinked(w, rows[i]);
      RowLater(w, w', rows[i].dependent);
    }
  }

  /** The engine's rows stay in order whatever step the services take: none takes Valid from it. */
  lemma RowsStayLinked(w: World, s: Step, rows: seq<Row>)
    requires Inv(w) && RowsLinked(w, rows)
    ensures Inv(Apply(w, s)) && RowsLinked(Apply(w, s), rows)
  {
    ApplyInv(w, s);
    ApplyIsLater(w, s);
    RowsLinkedLater(w, Apply(w, s), rows);
  }

  lemma AnswerLater(w: World, w': World, req: GetRequest, o: Operation)
    requires Later(w, w') && AnswerKept(w, req, o)
    ensures AnswerKept(w', req, o)
  {
    RowLater(w, w', o.name);
    var d, i :| Serving(w.cache, req, d, i, o);
    assert KeptEntry(w, w', d, i);
    assert Serving(w'.cache, req, d, i, o);
  }

  lemma AskingLater(w: World, w': World, e: Asking)
    requires Later(w, w') && AskingWell(w, e)
    ensures AskingWell(w', e)
  {
    forall v
      ensures LinkedValue(w', e, v)
    {
      assert LinkedValue(w, e, v);
      if v in e.operations {
        AnswerLater(w, w', RequestFor(e, v), e.operations[v]);
      }
    }
  }

  /** Whatever else happens in the services leaves rows, creations and polls in order. */
  lemma WorldLater(s: System, w': World)
    requires SystemInv(s) && Inv(w') && Later(s.world, w')
    ensures SystemInv(s.(world := w'))
  {
    var s' := s.(world := w');
    RowsLinkedLater(s.world, w', s.rows);
    forall id
      ensures AskingOk(s', id) && CreatedOk(s', id)
    {
      assert AskingOk(s, id) && CreatedOk(s, id);
      if id in s.asking {
        AskingLater(s.world, w', s.asking[id]);
      }
      if id in s.created {
        AskingLater(s.world, w', s.created[id]);
      }
    }
    forall h
      ensures PollingOk(s', h)
    {
      assert PollingOk(s, h);
      if h in s.polling {
        CollectingLater(s.world, w', s.polling[h]);
      }
    }
  }

  lemma StepKeeps(s: System, step: Step)
    requires SystemInv(s)
    ensures SystemInv(s.(world := Apply(s.world, step)))
  {
    ApplyInv(s.world, step);
    ApplyIsLater(s.world, step);
    WorldLater(s, Apply(s.world, step));
  }

  // ---------- The engine's own moves ----------

  lemma BeginKeeps(s: System, values: seq<string>, skip: bool, graph: Option<AGraph>)
    requires SystemInv(s)
    ensures SystemInv(Begin(s, values, skip, graph))
  {
    var id := s.world.nextId;
    StepKeeps(s, NewId);
    var s1 := s.(world := Apply(s.world, NewId));
    var s' := Begin(s, values, skip, graph);
    assert CreatedOk(s, id);
    assert forall i :: 0 <= i < |s.rows| ==> RowLinked(s.world, s.rows[i]);
    RowsOfNone(s.rows, id);
    forall i
      ensures AskingOk(s', i) && CreatedOk(s', i)
    {
      assert AskingOk(s1, i) && CreatedOk(s1, i);
      if i == id {
        forall v
          ensures LinkedValue(s'.world, s'.asking[id], v)
        {
        }
      }
    }
    forall h
      ensures PollingOk(s', h)
    {
      assert PollingOk(s1, h);
    }
  }

  /** Changing one creation leaves everything else in order. */
  lemma AskingChanged(s: System, s': System, id: Id)
    requires SystemInv(s) && AskingOk(s', id)
    requires s' == s.(asking := s'.asking)
    requires forall i :: i != id && i in s'.asking ==> i in s.asking && s'.asking[i] == s.asking[i]
    ensures SystemInv(s')
  {
    forall i
      ensures AskingOk(s', i) && CreatedOk(s', i)
    {
      assert AskingOk(s, i) && CreatedOk(s, i);
    }
    forall h
      ensures PollingOk(s', h)
    {
      assert PollingOk(s, h);
    }
  }

  function NextRequest(s: System, id: Id): GetRequest
    requires CanAsk(s, id)
  {
    RequestFor(s.asking[id], s.asking[id].values[s.asking[id].served])
  }

  lemma AnswerIsKept(w: World, req: GetRequest)
    requires Inv(w) && GetReply(w, req).Replied?
    ensures AnswerKept(GetWorld(w, req), req, GetReply(w, req).operation)
  {
    var o := GetReply(w, req).operation;
    if Hit(w.cache, req).Some? {
      var d, i := HitEntry(w.cache, req);
      assert EntryRecorded(w, d, i) && Invariants.Answered(w, o.name);
      assert Serving(w.cache, req, d, i, o);
    } else {
      var (d, i) := PutAt(w.cache, req);
      MissAt(w, req, d, i);
      assert Serving(Miss(w, req).cache, req, d, i, o);
    }
  }

  lemma AskAsking(s: System, id: Id)
    requires Inv(s.world) && CanAsk(s, id)
    requires AskingOk(s.(world := GetWorld(s.world, NextRequest(s, id))), id)
    ensures AskingOk(Ask(s, id), id)
  {
    AnswerAsking(s.world, s.asking[id]);
  }

  lemma AnswerAsking(w: World, e: Asking)
    requires Inv(w) && e.served < |e.values|
    requires AskingWell(GetWorld(w, RequestFor(e, e.values[e.served])), e)
    ensures var req := RequestFor(e, e.values[e.served]);
            GetReply(w, req).Replied? ==> AskingWell(GetWorld(w, req), WithAnswer(e, GetReply(w, req).operation))
  {
    var req := RequestFor(e, e.values[e.served]);
    if GetReply(w, req).Replied? {
      AnswerIsKept(w, req);
      AskedOneMore(GetWorld(w, req), e, GetReply(w, req).operation);
    }
  }

  lemma AskKeeps(s: System, id: Id)
    requires SystemInv(s) && CanAsk(s, id)
    ensures SystemInv(Ask(s, id))
  {
    var step := Get(NextRequest(s, id));
    StepKeeps(s, step);
    var s1 := s.(world := Apply(s.world, step));
    assert AskingOk(s1, id);
    AskAsking(s, id);
    AskingChanged(s1, Ask(s, id), id);
  }

  lemma AskedOneMore(w: World, e: Asking, o: Operation)
    requires AskingWell(w, e) && e.served < |e.values| && AnswerKept(w, RequestFor(e, e.values[e.served]), o)
    requires e.skip ==> !o.done
    ensures AskingWell(w, WithAnswer(e, o))
  {
    assert e.values[..e.served + 1] == e.values[..e.served] + [e.values[e.served]];
    forall v
      ensures LinkedValue(w, WithAnswer(e, o), v)
    {
      assert LinkedValue(w, e, v);
    }
  }

  lemma NewRowsFor(id: Id, operations: map<string, Operation>, order: seq<string>, v: string)
    requires forall v :: v in order ==> v in operations
    ensures ValueIn(NewRows(id, operations, order), v) <==> v in order
  {
    var rows := NewRows(id, operations, order);
    if v in order {
      var i :| 0 <= i < |order| && order[i] == v;
      assert rows[i].value == v;
    }
  }

  lemma FileRowsOf(s: System, id: Id, order: seq<string>, i: Id)
    requires CanFile(s, id, order)
    ensures RowsOf(File(s, id, order).rows, i) ==
            if i == id then RowsOf(s.rows, i) + NewRows(id, s.asking[id].operations, order) else RowsOf(s.rows, i)
  {
    var added := NewRows(id, s.asking[id].operations, order);
    RowsOfAppend(s.rows, added, i);
    RowsOfAll(added, id, i);
    assert RowsOf(s.rows, i) + [] == RowsOf(s.rows, i);
  }

  lemma NewRowsAre(id: Id, e: Asking, order: seq<string>)
    requires forall v :: v in order <==> v in e.operations
    ensures RowsAre(NewRows(id, e.operations, order), e)
  {
    forall v
      ensures v in e.operations <==> ValueIn(NewRows(id, e.operations, order), v)
    {
      NewRowsFor(id, e.operations, order, v);
    }
  }

  lemma FileCreated(s: System, id: Id, order: seq<string>, i: Id)
    requires CanFile(s, id, order) && AskingOk(s, id) && CreatedOk(s, i)
    ensures CreatedOk(File(s, id, order), i)
  {
    FileRowsOf(s, id, order, i);
    if i == id {
      var mine := NewRows(id, s.asking[id].operations, order);
      assert [] + mine == mine;
      NewRowsAre(id, s.asking[id], order);
    }
  }

  lemma FileKeeps(s: System, id: Id, order: seq<string>)
    requires SystemInv(s) && CanFile(s, id, order)
    ensures SystemInv(File(s, id, order))
  {
    var s', e := File(s, id, order), s.asking[id];
    assert AskingOk(s, id);
    FiledRows(s, id, NewRows(id, e.operations, order), e);
    forall i
      ensures AskingOk(s', i)
    {
      assert AskingOk(s, i);
      FileRowsOf(s, id, order, i);
    }
    forall i
      ensures CreatedOk(s', i)
    {
      assert CreatedOk(s, i);
      FileCreated(s, id, order, i);
    }
    forall h
      ensures PollingOk(s', h)
    {
      assert PollingOk(s, h);
      if h in s.polling {
        FileRowsOf(s, id, order, s.polling[h].name);
      }
    }
  }

  lemma FiledRows(s: System, id: Id, added: seq<Row>, e: Asking)
    requires RowsLinked(s.world, s.rows) && id < s.world.nextId && AskingWell(s.world, e)
    requires forall i :: 0 <= i < |added| ==>
               added[i].value in e.operations && added[i] == Row(id, e.operations[added[i].value].name, added[i].value)
    ensures RowsLinked(s.world, s.rows + added)
  {
    forall i | 0 <= i < |s.rows + added|
      ensures RowLinked(s.world, (s.rows + added)[i])
    {
      if i < |s.rows| {
        assert RowLinked(s.world, s.rows[i]);
      } else {
        assert LinkedValue(s.world, e, added[i - |s.rows|].value);
        assert (s.rows + added)[i] == added[i - |s.rows|];
      }
    }
  }

  lemma PollingChanged(s: System, s': System, h: nat)
    requires SystemInv(s) && PollingOk(s', h)
    requires s' == s.(polling := s'.polling, halted := s'.halted)
    requires forall i :: i != h && i in s'.polling ==> i in s.polling && s'.polling[i] == s.polling[i]
    ensures SystemInv(s')
  {
    forall i
      ensures AskingOk(s', i) && CreatedOk(s', i)
    {
      assert AskingOk(s, i) && CreatedOk(s, i);
    }
    forall i
      ensures PollingOk(s', i)
    {
      assert PollingOk(s, i);
    }
  }

  lemma EvaluationLinked(s: System, name: Id)
    requires RowsLinked(s.world, s.rows)
    ensures Linked(s.world, RowsOf(s.rows, name))
  {
    var mine := RowsOf(s.rows, name);
    forall i | 0 <= i < |mine|
      ensures mine[i].dependent in s.world.cache.downstream
    {
      RowsOfMember(s.rows, name, mine[i]);
      var j :| 0 <= j < |s.rows| && s.rows[j] == mine[i];
      assert RowLinked(s.world, s.rows[j]);
    }
  }

  lemma ReadKeeps(s: System, h: nat, name: Id)
    requires SystemInv(s) && h !in s.polling
    ensures SystemInv(Read(s, h, name))
  {
    EvaluationLinked(s, name);
    var s' := Read(s, h, name);
    assert Collecting(s.world, s'.polling[h]);
    PollingChanged(s, s', h);
  }

  /** A done answer is of a build recorded as done, and the cache has it stored from then on. */
  lemma PollAnswer(w: World, row: Row, answers: bool)
    requires Inv(w) && row.dependent in w.cache.downstream
    ensures var o := row.dependent;
            var reply := PollReply(w, o, answers);
            var w' := PollWorld(w, o, answers);
            && (reply.done ==> Built(w', o) && StoredDone(w'.cache, o))
            && (reply.done && reply.result.GetResponse? ==>
                  reply.result.value.Some? && BuiltImage(w', o, reply.result.value.value))
            && (reply.done && !reply.result.GetResponse? <==> StoredDone(w.cache, o))
  {
    assert Invariants.Answered(w, row.dependent) && HasBuild(w, row.dependent);
    DigestIffPushed(w, w.cache.downstream[row.dependent], answers);
  }

  lemma CollectedOneMore(w: World, p: Polling, done: bool, image: Image)
    requires Collecting(w, p) && p.polled < |p.mine|
    requires done ==> BuiltImage(w, p.mine[p.polled].dependent, image)
    requires done ==> StoredDone(w.cache, p.mine[p.polled].dependent)
    ensures Collecting(w, if done then p.(polled := p.polled + 1,
                                          results := p.results[p.mine[p.polled].value := Some(image)])
                          else p.(polled := p.polled + 1, done := false))
  {
    var n := p.polled;
    var p' := if done then p.(polled := n + 1, results := p.results[p.mine[n].value := Some(image)])
              else p.(polled := n + 1, done := false);
    forall v
      ensures ResultSound(w, p', v) && ResultAsked(p', v)
    {
      assert ResultSound(w, p, v) && ResultAsked(p, v);
      if done && v == p.mine[n].value {
        assert RowImageAt(w, p', n, v, image);
        assert p.mine[n].value == v;
      } else if v in p.results {
        var i :| RowImageAt(w, p, i, v, p.results[v].value);
        assert RowImageAt(w, p', i, v, p.results[v].value);
      }
    }
    forall i
      ensures RowDone(w, p', i)
    {
      assert RowDone(w, p, i);
    }
  }

  lemma PollRowPolling(s: System, h: nat, answers: bool)
    requires Inv(s.world) && CanPoll(s, h) && PollingOk(s, h)
    requires PollingOk(s.(world := PollWorld(s.world, NextOperation(s, h), answers)), h)
    ensures PollingOk(PollRow(s, h, answers), h)
  {
    var o := NextOperation(s, h);
    var p := s.polling[h];
    PollAnswer(s.world, p.mine[p.polled], answers);
    var reply, w' := PollReply(s.world, o, answers), PollWorld(s.world, o, answers);
    if !reply.done {
      CollectedOneMore(w', p, false, NO_IMAGE);
    } else if reply.result.GetResponse? {
      CollectedOneMore(w', p, true, reply.result.value.value);
    }
  }

  lemma PollRowChanges(s: System, h: nat, answers: bool)
    requires CanPoll(s, h)
    ensures var s' := PollRow(s, h, answers);
            && s' == s.(world := PollWorld(s.world, NextOperation(s, h), answers),
                        polling := s'.polling, halted := s'.halted)
            && forall i :: i != h && i in s'.polling ==> i in s.polling && s'.polling[i] == s.polling[i]
  {
  }

  lemma PollRowKeeps(s: System, h: nat, answers: bool)
    requires SystemInv(s) && CanPoll(s, h)
    ensures SystemInv(PollRow(s, h, answers))
  {
    var step := Poll(NextOperation(s, h), answers);
    StepKeeps(s, step);
    var s1 := s.(world := Apply(s.world, step));
    assert PollingOk(s, h) && PollingOk(s1, h);
    PollRowPolling(s, h, answers);
    PollRowChanges(s, h, answers);
    PollingChanged(s1, PollRow(s, h, answers), h);
  }

  lemma DoKeeps(s: System, m: Move)
    requires SystemInv(s)
    ensures SystemInv(Do(s, m))
  {
    match m {
      case Other(step) =>
        StepKeeps(s, step);
      case EvalBegin(values, skip, graph) =>
        BeginKeeps(s, values, skip, graph);
      case EvalAsk(id) =>
        if CanAsk(s, id) {
          AskKeeps(s, id);
        }
      case EvalFile(id, order) =>
        if CanFile(s, id, order) {
          FileKeeps(s, id, order);
        }
      case PollBegin(h, name) =>
        if h !in s.polling {
          ReadKeeps(s, h, name);
        }
      case PollNext(h, answers) =>
        if CanPoll(s, h) {
          PollRowKeeps(s, h, answers);
        }
    }
  }

  lemma {:induction false} PlayKeeps(moves: seq<Move>)
    ensures SystemInv(Play(moves))
    decreases |moves|
  {
    if moves == [] {
      InitInv();
    } else {
      var n := |moves| - 1;
      PlayKeeps(moves[..n]);
      DoKeeps(Play(moves[..n]), moves[n]);
    }
  }

  // ---------- What an answer means ----------

  lemma ServedAll(w: World, e: Asking, v: string)
    requires AskingWell(w, e) && e.served == |e.values|
    ensures v in e.operations <==> v in e.values
    ensures v in e.values ==>
              && AnswerKept(w, RequestFor(e, v), e.operations[v])
              && (e.done ==> e.operations[v].done) && (e.skip ==> !e.operations[v].done)
  {
    assert LinkedValue(w, e, v) && e.values[..e.served] == e.values;
  }

  /** The value is the image of the build, recorded as done, behind the answer to the request for it. */
  ghost predicate ValueAnswered(w: World, e: Asking, results: Values, v: string) {
    && v in e.operations && AnswerKept(w, RequestFor(e, v), e.operations[v])
    && v in results && results[v].Some? && BuiltImage(w, e.operations[v].name, results[v].value)
  }

  /**
   Whatever happened before and in between: when a poll of an evaluation that had been created
   is answered done, the reply has a value for exactly the names requested, each the image of the
   build, recorded as done, behind the cache's answer to the request for that name.
   */
  lemma DoneAnswer(moves: seq<Move>, h: nat)
    requires var s := Play(moves);
             Complete(s, h) && s.polling[h].known && PollingReply(s.polling[h]).done
    ensures var s := Play(moves);
            var reply := PollingReply(s.polling[h]);
            && reply.name in s.created
            && var e := s.created[reply.name];
               && (forall v :: v in reply.values <==> v in e.values)
               && (forall v :: v in e.values ==> ValueAnswered(s.world, e, reply.values, v))
  {
    var s := Play(moves);
    var p := s.polling[h];
    PlayKeeps(moves);
    assert PollingOk(s, h) && CreatedOk(s, p.name);
    var e := s.created[p.name];
    forall i | 0 <= i < |p.mine|
      ensures p.mine[i].value in p.results
    {
      assert RowDone(s.world, p, i);
    }
    forall v
      ensures v in p.results <==> v in e.values
      ensures v in e.values ==> ValueAnswered(s.world, e, p.results, v)
    {
      ServedAll(s.world, e, v);
      assert ResultSound(s.world, p, v) && ResultAsked(p, v);
      if v in p.results {
        var i :| RowImageAt(s.world, p, i, v, p.results[v].value);
        assert p.mine[i].dependent == e.operations[v].name;
      }
    }
  }

  /**
   Whatever happened in between: the reply to the creation of an evaluation has values only if it
   is done, and then for exactly the names requested: either empty or the image of the build,
   recorded as done, behind the operation, whose entry is acceptable to the request. Without the
   cache it is not done.
   */
  lemma CreationAnswer(moves: seq<Move>, id: Id, v: string)
    requires id in Play(moves).created
    ensures var s := Play(moves);
            var e := s.created[id];
            var reply := CreationReply(id, e);
            && (v in reply.values <==> reply.done && v in e.values)
            && (e.skip && e.values != [] ==> !reply.done)
            && (v in reply.values ==>
                  && v in e.operations && e.operations[v].done
                  && AnswerKept(s.world, RequestFor(e, v), e.operations[v])
                  && (reply.values[v].Some? ==>
                        BuiltImage(s.world, e.operations[v].name, reply.values[v].value)))
  {
    PlayKeeps(moves);
    assert CreatedOk(Play(moves), id);
    ServedAll(Play(moves).world, Play(moves).created[id], v);
  }

  /** Without the cache, a request of a creation either starts a build of its own or ends the creation. */
  lemma AskWithoutCache(moves: seq<Move>, id: Id)
    requires var s := Play(moves);
             !s.halted && CanAsk(s, id) && s.asking[id].skip
    ensures var s, s' := Play(moves), Do(Play(moves), EvalAsk(id));
            id in s'.asking ==>
              && s'.world.builder.info.Keys == s.world.builder.info.Keys + {s.world.nextId + 1}
              && s.world.nextId + 1 !in s.world.builder.info && !s'.asking[id].done
              && var v := s.asking[id].values[s.asking[id].served];
                 v in s'.asking[id].operations
                 && s'.asking[id].operations[v] == Operation(s.world.nextId + 2, false, GetResponse(None))
  {
    PlayKeeps(moves);
    assert HasOperation(Play(moves).world, Play(moves).world.nextId + 1);
  }

  /** With it, what something in the cache serves is answered done, with that operation, and starts nothing. */
  lemma AskWithCache(moves: seq<Move>, id: Id, o: Id)
    requires var s := Play(moves);
             && !s.halted && CanAsk(s, id) && !s.asking[id].skip
             && var e := s.asking[id];
                Hit(s.world.cache, GetRequest(false, e.graph, e.values[e.served])) == Some(o)
    ensures var s, s' := Play(moves), Do(Play(moves), EvalAsk(id));
            && s'.world == s.world && id in s'.asking && s'.asking[id].done == s.asking[id].done
            && var v := s.asking[id].values[s.asking[id].served];
               v in s'.asking[id].operations
               && s'.asking[id].operations[v].name == o && s'.asking[id].operations[v].done
  {
    var s := Play(moves);
    PlayKeeps(moves);
    assert Invariants.Answered(s.world, o);
  }

  /** The engine halts on a row exactly if the cache has its answer stored as done already. */
  lemma HaltsIffStored(moves: seq<Move>, h: nat, answers: bool)
    requires !Play(moves).halted && CanPoll(Play(moves), h)
    ensures Do(Play(moves), PollNext(h, answers)).halted <==>
            StoredDone(Play(moves).world.cache, NextOperation(Play(moves), h))
  {
    var s := Play(moves);
    PlayKeeps(moves);
    assert PollingOk(s, h);
    PollAnswer(s.world, s.polling[h].mine[s.polling[h].polled], answers);
  }

  /** Once a poll of an evaluation with any rows was answered done, the next poll of it halts the engine. */
  lemma NextPollHalts(moves: seq<Move>, h: nat, next: nat, answers: bool)
    requires var s := Play(moves);
             && !s.halted && Complete(s, h) && s.polling[h].known && s.polling[h].done
             && CanPoll(s, next) && s.polling[next].polled == 0
             && s.polling[next].known && s.polling[next].name == s.polling[h].name
    ensures Do(Play(moves), PollNext(next, answers)).halted
  {
    var s := Play(moves);
    PlayKeeps(moves);
    assert PollingOk(s, h) && PollingOk(s, next);
    assert RowDone(s.world, s.polling[h], 0);
    HaltsIffStored(moves, next, answers);
  }

  /** A halted engine does nothing any more: only the services go on, by other hands. */
  lemma {:induction false} HaltedForEver(s: System, moves: seq<Move>)
    requires s.halted
    ensures PlayOn(s, moves) == s.(world := PlayOn(s, moves).world)
    decreases |moves|
  {
    if moves != [] {
      HaltedForEver(s, moves[..|moves| - 1]);
    }
  }

  // ---------- A run that shows it ----------

  lemma PlayNext(moves: seq<Move>, m: Move)
    ensures Play(moves + [m]) == Do(Play(moves), m)
  {
    var next := moves + [m];
    assert next[..|next| - 1] == moves;
  }

  /** The request for one value, for evaluation 0: build 2 is queued, with operation 3. */
  function OneAsked(req: GetRequest): seq<Move> {
    [EvalBegin([req.value], req.skipCaching, req.graph)] + [EvalAsk(0)]
  }

  lemma AfterOneAsked(req: GetRequest)
    requires Buildable(req)
    ensures Misses(Apply(INIT, NewId).cache, req)
    ensures Play(OneAsked(req)) ==
            System(Miss(Apply(INIT, NewId), req), [], map[],
                   map[0 := Asking([req.value], req.skipCaching, req.graph, 1, false,
                                   map[req.value := Operation(3, false, GetResponse(None))])], map[], false)
  {
    AfterRequest(req);
    var begun := [EvalBegin([req.value], req.skipCaching, req.graph)];
    assert [] + begun == begun;
    PlayNext([], begun[0]);
    assert NextRequest(Play(begun), 0) == req;
    PlayNext(begun, EvalAsk(0));
  }

  function OneFiled(req: GetRequest): seq<Move> {
    OneAsked(req) + [EvalFile(0, [req.value])]
  }

  /** Nothing is polled, and there is this one row. */
  predicate OneRow(s: System, v: string) {
    s.rows == [Row(0, 3, v)] && s.created.Keys == {0} && s.polling == map[] && !s.halted
  }

  lemma AfterOneFiled(req: GetRequest)
    requires Buildable(req)
    ensures OneRow(Play(OneFiled(req)), req.value)
    ensures Misses(Apply(INIT, NewId).cache, req)
    ensures Play(OneFiled(req)).world == Miss(Apply(INIT, NewId), req)
  {
    AfterOneAsked(req);
    PlayNext(OneAsked(req), EvalFile(0, [req.value]));
  }

  /** The build is taken up and recorded as done. */
  function OneBuilt(req: GetRequest): seq<Move> {
    OneFiled(req) + [Other(Start)] + [Other(Event(2, Closed, true))]
  }

  lemma AfterOneBuilt(req: GetRequest)
    requires Buildable(req)
    ensures var s := Play(OneBuilt(req));
            OneRow(s, req.value) && Built(s.world, 3) && !StoredDone(s.world.cache, 3)
  {
    AfterOneFiled(req);
    PlayNext(OneFiled(req), Other(Start));
    PlayNext(OneFiled(req) + [Other(Start)], Other(Event(2, Closed, true)));
    BuildTaken(Apply(INIT, NewId), req);
  }

  /** An idle builder takes up the build of a request at once; the end of its watch records it as done. */
  lemma BuildTaken(w: World, req: GetRequest)
    requires w.builder.queue == [] && w.builder.running == map[] && Misses(w.cache, req)
    ensures var w' := Apply(Apply(Miss(w, req), Start), Event(w.nextId + 1, Closed, true));
            BuildDone(w'.builder, w.nextId + 1) && w'.cache == Miss(w, req).cache
  {
  }

  function OnePolled(req: GetRequest): seq<Move> {
    OneBuilt(req) + [PollBegin(0, 0)] + [PollNext(0, true)]
  }

  lemma AfterOnePolled(req: GetRequest)
    requires Buildable(req)
    ensures var s := Play(OnePolled(req));
            && !s.halted && s.polling.Keys == {0} && Complete(s, 0) && s.polling[0].known && s.polling[0].done
            && s.polling[0].name == 0 && s.rows == [Row(0, 3, req.value)] && s.created.Keys == {0}
  {
    AfterOneBuilt(req);
    PlayNext(OneBuilt(req), PollBegin(0, 0));
    PlayNext(OneBuilt(req) + [PollBegin(0, 0)], PollNext(0, true));
    OneRowPolled(Play(OneBuilt(req)), req.value);
  }

  lemma OneRowPolled(s: System, v: string)
    requires OneRow(s, v) && Built(s.world, 3) && !StoredDone(s.world.cache, 3)
    ensures var s' := Do(Do(s, PollBegin(0, 0)), PollNext(0, true));
            && !s'.halted && s'.polling.Keys == {0} && Complete(s', 0) && s'.polling[0].known && s'.polling[0].done
            && s'.polling[0].name == 0 && s'.rows == s.rows && s'.created == s.created
  {
    RowsOfAll(s.rows, 0, 0);
  }

  /**
   One client asks for one value, polls until the answer is done, and polls once more: the
   engine halts.
   */
  lemma HaltingRun(req: GetRequest)
    requires Buildable(req)
    ensures Play(OnePolled(req) + [PollBegin(1, 0)] + [PollNext(1, true)]).halted
  {
    var polled := OnePolled(req);
    AfterOnePolled(req);
    PlayNext(polled, PollBegin(1, 0));
    RowsOfAll(Play(polled).rows, 0, 0);
    NextPollHalts(polled + [PollBegin(1, 0)], 0, 1, true);
    PlayNext(polled + [PollBegin(1, 0)], PollNext(1, true));
  }
}
