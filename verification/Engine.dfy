/** The engine: evaluations of several values, each with an operation of the cache behind it. */
module Engine {
  import opened Wrappers
  import opened Actions
  import opened Protocol
  import opened Invariants
  import opened Hits
  import opened Answers
  import opened Cache

  /** A row of the table of operations. */
  datatype Row = Row(evaluation: Id, dependent: Id, value: string)

  type Values = map<string, Option<Image>>

  datatype EvalReply = EvalFailed | EvalHalted | EvalReplied(name: Id, done: bool, values: Values)

  function RowsOf(rows: seq<Row>, id: Id): seq<Row> {
    if rows == [] then []
    else
      var n := |rows| - 1;
      RowsOf(rows[..n], id) + if rows[n].evaluation == id then [rows[n]] else []
  }

  lemma {:induction false} RowsOfAppend(rows: seq<Row>, more: seq<Row>, id: Id)
    ensures RowsOf(rows + more, id) == RowsOf(rows, id) + RowsOf(more, id)
    decreases |more|
  {
    if more == [] {
      assert rows + more == rows;
    } else {
      var n := |more| - 1;
      RowsOfAppend(rows, more[..n], id);
      assert (rows + more)[..|rows + more| - 1] == rows + more[..n];
    }
  }

  lemma {:induction false} RowsOfAll(rows: seq<Row>, id: Id, other: Id)
    requires forall i :: 0 <= i < |rows| ==> rows[i].evaluation == id
    ensures RowsOf(rows, other) == if other == id then rows else []
    decreases |rows|
  {
    if rows != [] {
      RowsOfAll(rows[..|rows| - 1], id, other);
    }
  }

  lemma {:induction false} RowsOfNone(rows: seq<Row>, id: Id)
    requires forall i :: 0 <= i < |rows| ==> rows[i].evaluation != id
    ensures RowsOf(rows, id) == []
    decreases |rows|
  {
    if rows != [] {
      RowsOfNone(rows[..|rows| - 1], id);
    }
  }

  lemma {:induction false} RowsOfMember(rows: seq<Row>, id: Id, r: Row)
    ensures r in RowsOf(rows, id) <==> r in rows && r.evaluation == id
    decreases |rows|
  {
    if rows != [] {
      var n := |rows| - 1;
      RowsOfMember(rows[..n], id, r);
      assert rows == rows[..n] + [rows[n]];
    }
  }

  // ---------- Polling an evaluation ----------

  /** The poll of this row gets a stored answer, whose payload the engine cannot unpack. */
  predicate HaltsAt(w: World, mine: seq<Row>, i: nat)
    requires i < |mine|
  {
    StoredDone(w.cache, mine[i].dependent)
    || (Built(w, mine[i].dependent) && exists j :: 0 <= j < i && mine[j].dependent == mine[i].dependent)
  }

  predicate HaltsWithin(w: World, mine: seq<Row>, n: nat)
    requires n <= |mine|
  {
    exists i :: 0 <= i < n && HaltsAt(w, mine, i)
  }

  predicate Halts(w: World, mine: seq<Row>) {
    HaltsWithin(w, mine, |mine|)
  }

  lemma HaltsOneMore(w: World, mine: seq<Row>, n: nat)
    requires n < |mine|
    ensures HaltsWithin(w, mine, n + 1) <==> HaltsWithin(w, mine, n) || HaltsAt(w, mine, n)
    ensures HaltsAt(w, mine, n) ==> Halts(w, mine)
  {
  }

  predicate Linked(w: World, mine: seq<Row>) {
    forall i :: 0 <= i < |mine| ==> mine[i].dependent in w.cache.downstream
  }

  /** The polls of the first rows of an evaluation. */
  function Polls(mine: seq<Row>, answers: nat -> bool): seq<Step> {
    if mine == [] then []
    else
      var n := |mine| - 1;
      Polls(mine[..n], answers) + [Poll(mine[n].dependent, answers(n))]
  }

  /** After polling rows, those whose build is recorded as done are stored as done, besides those before. */
  ghost predicate PolledAll(w0: World, w: World, mine: seq<Row>) {
    && w.builder == w0.builder && w.cluster == w0.cluster
    && w.cache.downstream == w0.cache.downstream && w.cache.data == w0.cache.data
    && forall o :: PolledOne(w0, w, mine, o)
  }

  predicate PolledOne(w0: World, w: World, mine: seq<Row>, o: Id) {
    StoredDone(w.cache, o) <==>
      StoredDone(w0.cache, o) || (Built(w0, o) && exists j :: 0 <= j < |mine| && mine[j].dependent == o)
  }

  lemma PollOneMore(w0: World, w: World, mine: seq<Row>, n: nat, now: bool)
    requires n < |mine| && PolledAll(w0, w, mine[..n])
    ensures PolledAll(w0, PollWorld(w, mine[n].dependent, now), mine[..n + 1])
  {
    var o := mine[n].dependent;
    var w' := PollWorld(w, o, now);
    var longer := mine[..n + 1];
    forall p: Id
      ensures PolledOne(w0, w', longer, p)
    {
      assert PolledOne(w0, w, mine[..n], p);
      assert forall j :: 0 <= j < n ==> longer[j] == mine[..n][j];
      assert longer[n] == mine[n];
    }
  }

  ghost predicate AllBuilt(w: World, mine: seq<Row>) {
    forall i :: 0 <= i < |mine| ==> Built(w, mine[i].dependent)
  }

  /** The image is that of the build behind a row, recorded as done, with the digest there was when it was polled. */
  predicate ImageOfRow(w: World, row: Row, now: bool, image: Image) {
    && Built(w, row.dependent)
    && var k := w.cache.downstream[row.dependent];
       k in w.builder.info && image == Image(w.builder.info[k].imageName, w.builder.info[k].imageTag,
                                                DigestOf(w.cluster, w.builder.info[k].imageTag, now))
  }

  ghost predicate Available(w: World, mine: seq<Row>, v: string) {
    exists i :: 0 <= i < |mine| && mine[i].value == v && Built(w, mine[i].dependent)
  }

  ghost predicate Supplied(w: World, mine: seq<Row>, answers: nat -> bool, v: string, image: Image) {
    exists i :: 0 <= i < |mine| && mine[i].value == v && ImageOfRow(w, mine[i], answers(i), image)
  }

  ghost predicate ResultFor(w: World, mine: seq<Row>, answers: nat -> bool, results: Values, v: string) {
    && (v in results <==> Available(w, mine, v))
    && (v in results ==> results[v].Some? && Supplied(w, mine, answers, v, results[v].value))
  }

  /** What the rows polled so far say: done, and the values there are. */
  ghost predicate Collected(w: World, mine: seq<Row>, answers: nat -> bool, done: bool, results: Values) {
    && (done <==> AllBuilt(w, mine))
    && forall v :: ResultFor(w, mine, answers, results, v)
  }

  lemma CollectOne(w: World, mine: seq<Row>, n: nat, answers: nat -> bool,
                   done: bool, results: Values, image: Image)
    requires n < |mine| && Collected(w, mine[..n], answers, done, results)
    requires Built(w, mine[n].dependent) ==> ImageOfRow(w, mine[n], answers(n), image)
    ensures var built := Built(w, mine[n].dependent);
            Collected(w, mine[..n + 1], answers, done && built,
                      if built then results[mine[n].value := Some(image)] else results)
  {
    var built := Built(w, mine[n].dependent);
    var longer, shorter := mine[..n + 1], mine[..n];
    var results' := if built then results[mine[n].value := Some(image)] else results;
    assert longer == shorter + [mine[n]];
    forall v: string
      ensures ResultFor(w, longer, answers, results', v)
    {
      assert ResultFor(w, shorter, answers, results, v);
      if Available(w, shorter, v) {
        var i :| 0 <= i < |shorter| && shorter[i].value == v && Built(w, shorter[i].dependent);
        assert longer[i] == shorter[i];
      }
      if v in results {
        var i :| 0 <= i < |shorter| && shorter[i].value == v
                 && ImageOfRow(w, shorter[i], answers(i), results[v].value);
        assert longer[i] == shorter[i];
      }
      if built {
        assert longer[n].value == mine[n].value;
      }
    }
    AllBuiltOneMore(w, mine, n);
  }

  lemma AllBuiltOneMore(w: World, mine: seq<Row>, n: nat)
    requires n < |mine|
    ensures AllBuilt(w, mine[..n + 1]) <==> AllBuilt(w, mine[..n]) && Built(w, mine[n].dependent)
  {
    var longer, shorter := mine[..n + 1], mine[..n];
    assert longer == shorter + [mine[n]];
    if AllBuilt(w, longer) {
      assert Built(w, longer[n].dependent);
      forall i | 0 <= i < n
        ensures Built(w, shorter[i].dependent)
      {
        assert longer[i] == shorter[i];
      }
    }
  }

  /** How the poll of the next row is answered, given what has been polled before it. */
  lemma NextPoll(w0: World, w: World, mine: seq<Row>, n: nat, now: bool)
    requires n < |mine| && PolledAll(w0, w, mine[..n]) && Inv(w) && mine[n].dependent in w.cache.downstream
    ensures var reply := PollReply(w, mine[n].dependent, now);
            if HaltsAt(w0, mine, n) then reply.done && reply.result.BuildResponse?
            else (reply.done <==> Built(w0, mine[n].dependent))
                 && reply.result.GetResponse? && reply.result.value.Some?
                 && (reply.done ==> ImageOfRow(w0, mine[n], now, reply.result.value.value))
  {
    var o := mine[n].dependent;
    assert PolledOne(w0, w, mine[..n], o);
    assert Answered(w, o) && HasBuild(w, o);
  }

  // ---------- Starting an evaluation ----------

  function Requests(values: seq<string>, skip: bool, graph: Option<AGraph>): seq<Step> {
    if values == [] then []
    else
      var n := |values| - 1;
      Requests(values[..n], skip, graph) + [Get(GetRequest(skip, graph, values[n]))]
  }

  lemma RequestsOneMore(w: World, values: seq<string>, n: nat, skip: bool, graph: Option<AGraph>)
    requires n < |values|
    ensures Run(w, Requests(values[..n + 1], skip, graph)) ==
            GetWorld(Run(w, Requests(values[..n], skip, graph)), GetRequest(skip, graph, values[n]))
  {
    assert values[..n + 1][..n] == values[..n];
    var steps := Requests(values[..n + 1], skip, graph);
    assert steps[..|steps| - 1] == Requests(values[..n], skip, graph);
  }

  /** The operation is the cache's answer to the last request for the value. */
  ghost predicate LastAnswer(w: World, values: seq<string>, skip: bool, graph: Option<AGraph>,
                             v: string, o: Operation) {
    exists i :: AnswerAt(w, values, skip, graph, i, v, o)
  }

  predicate AnswerAt(w: World, values: seq<string>, skip: bool, graph: Option<AGraph>,
                     i: int, v: string, o: Operation) {
    && 0 <= i < |values| && values[i] == v && v !in values[i + 1..]
    && GetReply(Run(w, Requests(values[..i], skip, graph)), GetRequest(skip, graph, v)) == Replied(o)
  }

  ghost predicate Fetched(w: World, values: seq<string>, skip: bool, graph: Option<AGraph>, v: string,
                          operations: map<string, Operation>) {
    && (v in operations <==> v in values)
    && (v in operations ==> LastAnswer(w, values, skip, graph, v, operations[v]))
  }

  ghost predicate FetchedAll(w: World, values: seq<string>, skip: bool, graph: Option<AGraph>,
                             operations: map<string, Operation>) {
    forall v :: Fetched(w, values, skip, graph, v, operations)
  }

  lemma FetchedKeys(w: World, values: seq<string>, skip: bool, graph: Option<AGraph>,
                    operations: map<string, Operation>)
    requires FetchedAll(w, values, skip, graph, operations)
    ensures forall v :: v in values <==> v in operations
  {
    forall v: string
      ensures v in values <==> v in operations
    {
      assert Fetched(w, values, skip, graph, v, operations);
    }
  }

  /** Between two requests: done as long as no build was started, and every answer in the cache. */
  ghost predicate Fetching(w0: World, w: World, done: bool, operations: map<string, Operation>) {
    && w.nextId >= w0.nextId
    && (if done then w == w0 else |w.builder.info| > |w0.builder.info|)
    && forall v :: v in operations ==>
         operations[v].name in w.cache.downstream && operations[v].result.GetResponse?
  }

  lemma FetchOneMore(w: World, values: seq<string>, n: nat, skip: bool, graph: Option<AGraph>,
                     operations: map<string, Operation>, o: Operation)
    requires n < |values|
    requires FetchedAll(w, values[..n], skip, graph, operations)
    requires GetReply(Run(w, Requests(values[..n], skip, graph)), GetRequest(skip, graph, values[n])) == Replied(o)
    ensures FetchedAll(w, values[..n + 1], skip, graph, operations[values[n] := o])
  {
    var operations' := operations[values[n] := o];
    var longer := values[..n + 1];
    forall v: string
      ensures Fetched(w, longer, skip, graph, v, operations')
    {
      assert Fetched(w, values[..n], skip, graph, v, operations);
      assert v in longer <==> v in values[..n] || v == values[n];
      if v == values[n] {
        assert longer[..n] == values[..n] && longer[n + 1..] == [];
        assert AnswerAt(w, longer, skip, graph, n, v, o);
      } else if v in values[..n] {
        StillLast(w, values, n, skip, graph, v, operations[v]);
      }
    }
  }

  lemma StillLast(w: World, values: seq<string>, n: nat, skip: bool, graph: Option<AGraph>, v: string, o: Operation)
    requires n < |values| && v != values[n] && LastAnswer(w, values[..n], skip, graph, v, o)
    ensures LastAnswer(w, values[..n + 1], skip, graph, v, o)
  {
    var longer, shorter := values[..n + 1], values[..n];
    var i :| AnswerAt(w, shorter, skip, graph, i, v, o);
    assert longer == shorter + [values[n]];
    assert longer[..i] == shorter[..i] && longer[i + 1..] == shorter[i + 1..] + [values[n]];
    assert AnswerAt(w, longer, skip, graph, i, v, o);
  }

  /** An answered request leaves its operation in the cache, and is done unless it started a build. */
  lemma AnswerLinked(w: World, req: GetRequest)
    requires Inv(w) && GetReply(w, req).Replied?
    ensures var o := GetReply(w, req).operation;
            && o.result.GetResponse?
            && o.name in GetWorld(w, req).cache.downstream
            && (o.done <==> !Misses(w.cache, req))
  {
    if Hit(w.cache, req).Some? {
      var d, i := HitEntry(w.cache, req);
      assert EntryRecorded(w, d, i);
      assert Answered(w, Hit(w.cache, req).value);
    }
  }

  /** A request never takes an operation away, and grows the records just when it starts a build. */
  lemma RequestGrows(w: World, req: GetRequest)
    requires Matched(w)
    ensures w.cache.downstream.Keys <= GetWorld(w, req).cache.downstream.Keys
    ensures w.nextId <= GetWorld(w, req).nextId
    ensures if Misses(w.cache, req) then |GetWorld(w, req).builder.info| == |w.builder.info| + 1
            else GetWorld(w, req) == w
  {
    assert HasOperation(w, w.nextId + 1);
  }

  lemma RequestKeepsRows(w: World, req: GetRequest, rows: seq<Row>)
    requires Matched(w) && RowsLinked(w, rows)
    ensures RowsLinked(GetWorld(w, req), rows)
    ensures GetReply(w, req).Replied? || GetWorld(w, req) == w
  {
    RequestGrows(w, req);
    forall i | 0 <= i < |rows|
      ensures RowLinked(GetWorld(w, req), rows[i])
    {
      assert RowLinked(w, rows[i]);
    }
  }

  // ---------- With and without the cache ----------

  /** Without the cache a request never hits: answered, it has started a build of its own, and is not done. */
  lemma SkippedStarts(w: World, graph: Option<AGraph>, v: string)
    requires Matched(w) && GetReply(w, GetRequest(true, graph, v)).Replied?
    ensures var req := GetRequest(true, graph, v);
            && !GetReply(w, req).operation.done && GetReply(w, req).operation.name == w.nextId + 2
            && |GetWorld(w, req).builder.info| == |w.builder.info| + 1
            && forall w': World :: GetReply(w', req).Replied?
  {
    RequestGrows(w, GetRequest(true, graph, v));
  }

  /** So the records grow by one for each value requested. */
  lemma {:induction false} SkippedGrow(w: World, values: seq<string>, graph: Option<AGraph>)
    requires Inv(w) && forall v, w': World :: v in values ==> GetReply(w', GetRequest(true, graph, v)).Replied?
    ensures Inv(Run(w, Requests(values, true, graph)))
    ensures |Run(w, Requests(values, true, graph)).builder.info| == |w.builder.info| + |values|
    decreases |values|
  {
    if values != [] {
      var n := |values| - 1;
      SkippedGrow(w, values[..n], graph);
      assert values[..n + 1] == values;
      RequestsOneMore(w, values, n, true, graph);
      var before := Run(w, Requests(values[..n], true, graph));
      SkippedStarts(before, graph, values[n]);
      ApplyInv(before, Get(GetRequest(true, graph, values[n])));
    }
  }

  lemma SkippedAll(w: World, values: seq<string>, graph: Option<AGraph>, operations: map<string, Operation>)
    requires Inv(w) && FetchedAll(w, values, true, graph, operations)
    ensures |Run(w, Requests(values, true, graph)).builder.info| == |w.builder.info| + |values|
  {
    forall v, w': World | v in values
      ensures GetReply(w', GetRequest(true, graph, v)).Replied?
    {
      assert Fetched(w, values, true, graph, v, operations);
      var i :| AnswerAt(w, values, true, graph, i, v, operations[v]);
      RunInv(w, Requests(values[..i], true, graph));
      SkippedStarts(Run(w, Requests(values[..i], true, graph)), graph, v);
    }
    SkippedGrow(w, values, graph);
  }

  /** What a request hits, it hits after any other requests. */
  lemma {:induction false} HitStays(w: World, steps: seq<Step>, req: GetRequest)
    requires Hit(w.cache, req).Some?
    ensures Hit(Run(w, steps).cache, req) == Hit(w.cache, req)
    decreases |steps|
  {
    if steps != [] {
      var n := |steps| - 1;
      HitStays(w, steps[..n], req);
      ApplyKeepsLookup(Run(w, steps[..n]), steps[n], MainAction(req).value);
    }
  }

  /** With the cache, a value that something serves from the start is answered done, with that operation. */
  lemma ServedAnswer(w: World, values: seq<string>, graph: Option<AGraph>, v: string, o: Operation)
    requires LastAnswer(w, values, false, graph, v, o) && Hit(w.cache, GetRequest(false, graph, v)).Some?
    ensures o.done && Hit(w.cache, GetRequest(false, graph, v)) == Some(o.name)
  {
    var i :| AnswerAt(w, values, false, graph, i, v, o);
    HitStays(w, Requests(values[..i], false, graph), GetRequest(false, graph, v));
  }

  /** If that goes for all values, the services stay as they are. */
  lemma {:induction false} AllServed(w: World, values: seq<string>, graph: Option<AGraph>)
    requires forall v :: v in values ==> Hit(w.cache, GetRequest(false, graph, v)).Some?
    ensures Run(w, Requests(values, false, graph)) == w
    decreases |values|
  {
    if values != [] {
      var n := |values| - 1;
      AllServed(w, values[..n], graph);
      assert values[..n + 1] == values;
      RequestsOneMore(w, values, n, false, graph);
    }
  }

  lemma FetchingOneMore(w0: World, w: World, req: GetRequest, v: string,
                        done: bool, operations: map<string, Operation>)
    requires Inv(w) && Fetching(w0, w, done, operations) && GetReply(w, req).Replied?
    ensures var o := GetReply(w, req).operation;
            Fetching(w0, GetWorld(w, req), done && o.done, operations[v := o])
  {
    RequestGrows(w, req);
    AnswerLinked(w, req);
  }

  /** One row for each requested value, with the operation that answered it. */
  ghost predicate RowsFor(rows: seq<Row>, id: Id, operations: map<string, Operation>, todo: set<string>) {
    && (forall i :: 0 <= i < |rows| ==>
          rows[i].value in operations && rows[i].value !in todo
          && rows[i] == Row(id, operations[rows[i].value].name, rows[i].value))
    && (forall v :: v in operations ==> v in todo || ValueIn(rows, v))
    && (forall i, j :: 0 <= i < j < |rows| ==> rows[i].value != rows[j].value)
  }

  ghost predicate ValueIn(rows: seq<Row>, v: string) {
    exists i :: 0 <= i < |rows| && rows[i].value == v
  }

  /** An evaluation's rows hold the cache's last answer for each value, and its reply their values. */
  ghost predicate Filed(w: World, values: seq<string>, skip: bool, graph: Option<AGraph>,
                        mine: seq<Row>, id: Id, results: Values) {
    exists operations: map<string, Operation> ::
      && FetchedAll(w, values, skip, graph, operations)
      && RowsFor(mine, id, operations, {})
      && ValuesOf(results, operations)
  }

  ghost predicate ValuesOf(results: Values, operations: map<string, Operation>) {
    forall v :: v in results ==> v in operations && GetResponse(results[v]) == operations[v].result
  }

  predicate RowLinked(w: World, r: Row) {
    r.evaluation < w.nextId && r.dependent in w.cache.downstream
  }

  predicate RowsLinked(w: World, rows: seq<Row>) {
    forall i :: 0 <= i < |rows| ==> RowLinked(w, rows[i])
  }

  /** New rows under a new evaluation are its rows, and leave every other one's alone. */
  lemma RowsFiled(w: World, before: seq<Row>, added: seq<Row>, id: Id, operations: map<string, Operation>)
    requires RowsLinked(w, before) && RowsFor(added, id, operations, {}) && RowsOf(before, id) == []
    requires id < w.nextId && forall v :: v in operations ==> operations[v].name in w.cache.downstream
    ensures RowsLinked(w, before + added)
    ensures RowsOf(before + added, id) == added
    ensures forall e :: e != id ==> RowsOf(before + added, e) == RowsOf(before, e)
  {
    var after := before + added;
    forall i | 0 <= i < |after|
      ensures RowLinked(w, after[i])
    {
      if i < |before| {
        assert after[i] == before[i];
      } else {
        assert after[i] == added[i - |before|];
      }
    }
    forall e: Id
      ensures RowsOf(after, e) == RowsOf(before, e) + if e == id then added else []
    {
      RowsOfAppend(before, added, e);
      RowsOfAll(added, id, e);
    }
  }

  lemma RowsOneMore(rows: seq<Row>, id: Id, operations: map<string, Operation>, todo: set<string>, v: string)
    requires RowsFor(rows, id, operations, todo) && v in todo && v in operations
    ensures RowsFor(rows + [Row(id, operations[v].name, v)], id, operations, todo - {v})
  {
    var more := rows + [Row(id, operations[v].name, v)];
    forall u | u in operations && u !in todo - {v}
      ensures ValueIn(more, u)
    {
      if u == v {
        assert more[|rows|].value == v;
      } else {
        var i :| 0 <= i < |rows| && rows[i].value == u;
        assert more[i].value == u;
      }
    }
  }

  /** If something serves the row's value in the cache, it is the row's operation. */
  predicate ServedRow(c: CacheState, graph: Option<AGraph>, row: Row) {
    var o := Hit(c, GetRequest(false, graph, row.value));
    o.Some? ==> o.value == row.dependent
  }

  lemma FiledServed(w: World, values: seq<string>, graph: Option<AGraph>, mine: seq<Row>, id: Id, results: Values)
    requires Filed(w, values, false, graph, mine, id, results)
    ensures forall i :: 0 <= i < |mine| ==> ServedRow(w.cache, graph, mine[i])
  {
    var operations: map<string, Operation> :|
      FetchedAll(w, values, false, graph, operations) && RowsFor(mine, id, operations, {});
    forall i | 0 <= i < |mine|
      ensures ServedRow(w.cache, graph, mine[i])
    {
      var v := mine[i].value;
      assert Fetched(w, values, false, graph, v, operations);
      if Hit(w.cache, GetRequest(false, graph, v)).Some? {
        ServedAnswer(w, values, graph, v, operations[v]);
      }
    }
  }

  lemma FiledSkipped(w: World, values: seq<string>, graph: Option<AGraph>, mine: seq<Row>, id: Id, results: Values)
    requires Inv(w) && Filed(w, values, true, graph, mine, id, results)
    ensures |Run(w, Requests(values, true, graph)).builder.info| == |w.builder.info| + |values|
  {
    var operations: map<string, Operation> :| FetchedAll(w, values, true, graph, operations);
    SkippedAll(w, values, graph, operations);
  }

  /** What the flag makes of a creation; c is the cache before it. */
  ghost predicate Flagged(c: CacheState, before: nat, after: nat, values: seq<string>, skip: bool,
                          graph: Option<AGraph>, mine: seq<Row>, done: bool)
  {
    if skip then after == before + |values| && (values != [] ==> !done)
    else
      && (forall i :: 0 <= i < |mine| ==> ServedRow(c, graph, mine[i]))
      && ((forall v :: v in values ==> Hit(c, GetRequest(false, graph, v)).Some?) ==> done)
  }

  lemma FiledFlagged(w: World, values: seq<string>, skip: bool, graph: Option<AGraph>,
                     mine: seq<Row>, id: Id, results: Values, done: bool)
    requires Inv(w) && Filed(w, values, skip, graph, mine, id, results)
    requires done <==> Run(w, Requests(values, skip, graph)).builder == w.builder
    ensures Flagged(w.cache, |w.builder.info|, |Run(w, Requests(values, skip, graph)).builder.info|,
                    values, skip, graph, mine, done)
  {
    if skip {
      FiledSkipped(w, values, graph, mine, id, results);
    } else {
      FiledServed(w, values, graph, mine, id, results);
      if forall v :: v in values ==> Hit(w.cache, GetRequest(false, graph, v)).Some? {
        AllServed(w, values, graph);
      }
    }
  }

  // ---------- The service ----------

  method CollectValues(values: seq<string>, operations: map<string, Operation>) returns (results: Values)
    requires forall v :: v in values ==> v in operations && operations[v].result.GetResponse?
    ensures forall v :: v in results <==> v in values
    ensures ValuesOf(results, operations)
  {
    results := map[];
    for i := 0 to |values|
      invariant forall v :: v in results <==> v in values[..i]
      invariant ValuesOf(results, operations)
    {
      results := results[values[i] := operations[values[i]].result.value];
    }
  }

  class EngineService {
    const cache: CacheService
    var rows: seq<Row>

    /** The services below are in a reachable state, and every row names one of their operations. */
    ghost predicate Valid()
      reads this, cache, cache.builder, cache.builder.outside, cache.ids
    {
      && cache.builder.ids == cache.ids
      && Inv(cache.World())
      && RowsLinked(cache.World(), rows)
    }

    constructor (cache: CacheService)
      requires cache.builder.ids == cache.ids && Inv(cache.World())
      ensures this.cache == cache && rows == [] && Valid()
    {
      this.cache := cache;
      rows := [];
    }

    /**
     Polls every operation of an evaluation. The reply is done exactly when all the builds
     behind it are, and holds a value for each that is. The engine halts exactly if the cache
     has a done answer stored for one of them already, be it from a row polled before.
     */
    method GetOperation(name: Id, answers: nat -> bool) returns (r: EvalReply)
      requires Valid()
      modifies cache`upstream
      ensures Valid()
      ensures var w0, mine := old(cache.World()), RowsOf(rows, name);
              if Halts(w0, mine) then r == EvalHalted
              else
                && r.EvalReplied? && r.name == name
                && cache.World() == Run(w0, Polls(mine, answers))
                && Collected(w0, mine, answers, r.done, r.values)
                && (r.done && mine != [] ==> Halts(cache.World(), mine))
    {
      var mine := RowsOf(rows, name);
      ghost var w0 := cache.World();
      OwnRows(name);
      var collected := PollRows(mine, answers);
      if collected.None? {
        return EvalHalted;
      }
      r := EvalReplied(name, collected.value.0, collected.value.1);
      if r.done && mine != [] {
        DoneHaltsNext(w0, cache.World(), mine);
      }
    }

    /**
     Asks the cache for every value, then files the answers under a fresh evaluation. A failed
     request fails the whole. The reply is done exactly when no build was started, and only then
     holds values. Without the cache every value starts a build of its own; with it, a value that
     something served before has that operation.
     */
    method Eval(values: seq<string>, skip: bool, graph: Option<AGraph>) returns (r: EvalReply, ghost served: nat)
      requires Valid()
      modifies this, cache, cache.builder, cache.ids
      ensures Valid()
      ensures served <= |values|
      ensures cache.World() == Run(Apply(old(cache.World()), NewId), Requests(values[..served], skip, graph))
      ensures r.EvalReplied? <==> served == |values|
      ensures !r.EvalReplied? ==> r == EvalFailed && rows == old(rows)
      ensures r.EvalReplied? ==>
                && r.name == old(cache.ids.next)
                && (r.done <==> cache.builder.State() == old(cache.builder.State()))
                && (forall v :: v in r.values <==> r.done && v in values)
                && (forall e :: e != r.name ==> RowsOf(rows, e) == RowsOf(old(rows), e))
                && Filed(Apply(old(cache.World()), NewId), values, skip, graph,
                         RowsOf(rows, r.name), r.name, r.values)
                && Flagged(old(cache.State()), |old(cache.builder.buildInfo)|, |cache.builder.buildInfo|,
                           values, skip, graph, RowsOf(rows, r.name), r.done)
    {
      var id := FreshId();
      ghost var w := cache.World();
      var ok, done, operations;
      ok, done, operations, served := FetchAll(values, skip, graph);
      if !ok {
        return EvalFailed, served;
      }
      assert values[..served] == values;
      r := FileAnswers(id, w, values, skip, graph, done, operations);
      FiledFlagged(w, values, skip, graph, RowsOf(rows, id), id, r.values, done);
    }

    /** The id of a new evaluation, which has no rows yet. */
    method FreshId() returns (id: Id)
      requires Valid()
      modifies cache.ids
      ensures Valid() && id == old(cache.ids.next)
      ensures cache.World() == Apply(old(cache.World()), NewId) && RowsOf(rows, id) == []
    {
      id := cache.ids.Fresh();
      NewIdInv(old(cache.World()));
      RowsOfNone(rows, id);
    }

    /** Files the answers and replies, with their values if they are all done. */
    method FileAnswers(id: Id, ghost w: World, values: seq<string>, ghost skip: bool, ghost graph: Option<AGraph>,
                       done: bool, operations: map<string, Operation>)
      returns (r: EvalReply)
      requires Valid() && id < cache.ids.next && RowsOf(rows, id) == []
      requires FetchedAll(w, values, skip, graph, operations)
      requires forall v :: v in operations ==>
                 operations[v].name in cache.downstream && operations[v].result.GetResponse?
      modifies this
      ensures Valid()
      ensures r.EvalReplied? && r.name == id && r.done == done
      ensures forall v :: v in r.values <==> done && v in values
      ensures forall e :: e != id ==> RowsOf(rows, e) == RowsOf(old(rows), e)
      ensures Filed(w, values, skip, graph, RowsOf(rows, id), id, r.values)
    {
      FetchedKeys(w, values, skip, graph, operations);
      NewEvaluation(id, operations);
      var results: Values := map[];
      if done {
        results := CollectValues(values, operations);
      }
      r := EvalReplied(id, done, results);
    }

    method FetchAll(values: seq<string>, skip: bool, graph: Option<AGraph>)
      returns (ok: bool, done: bool, operations: map<string, Operation>, ghost served: nat)
      requires Valid()
      modifies cache, cache.builder, cache.ids
      ensures Valid()
      ensures served <= |values| && (ok <==> served == |values|)
      ensures cache.World() == Run(old(cache.World()), Requests(values[..served], skip, graph))
      ensures Fetching(old(cache.World()), cache.World(), done, operations)
      ensures ok ==> FetchedAll(old(cache.World()), values, skip, graph, operations)
    {
      ghost var w0 := cache.World();
      operations := map[];
      done := true;
      assert values[..0] == [];
      for i := 0 to |values|
        invariant Valid()
        invariant cache.World() == Run(w0, Requests(values[..i], skip, graph))
        invariant FetchedAll(w0, values[..i], skip, graph, operations)
        invariant Fetching(w0, cache.World(), done, operations)
      {
        var next := FetchOne(w0, values, i, skip, graph, done, operations);
        if next.None? {
          return false, done, operations, i;
        }
        done, operations := next.value.0, next.value.1;
      }
      assert values[..|values|] == values;
      return true, done, operations, |values|;
    }

    method FetchOne(ghost w0: World, values: seq<string>, n: nat, skip: bool, graph: Option<AGraph>,
                    done: bool, operations: map<string, Operation>)
      returns (r: Option<(bool, map<string, Operation>)>)
      requires Valid() && n < |values|
      requires cache.World() == Run(w0, Requests(values[..n], skip, graph))
      requires FetchedAll(w0, values[..n], skip, graph, operations)
      requires Fetching(w0, cache.World(), done, operations)
      modifies cache, cache.builder, cache.ids
      ensures Valid()
      ensures r.None? ==> cache.World() == old(cache.World())
      ensures r.Some? ==>
                && cache.World() == Run(w0, Requests(values[..n + 1], skip, graph))
                && FetchedAll(w0, values[..n + 1], skip, graph, r.value.1)
                && Fetching(w0, cache.World(), r.value.0, r.value.1)
    {
      var req := GetRequest(skip, graph, values[n]);
      ghost var w := cache.World();
      RequestKeepsRows(w, req, rows);
      RequestsOneMore(w0, values, n, skip, graph);
      ApplyInv(w, Get(req));
      var reply := cache.Get(req);
      if !reply.Replied? {
        return None;
      }
      FetchingOneMore(w0, w, req, values[n], done, operations);
      FetchOneMore(w0, values, n, skip, graph, operations, reply.operation);
      return Some((done && reply.operation.done, operations[values[n] := reply.operation]));
    }

    method NewEvaluation(id: Id, operations: map<string, Operation>)
      requires Valid() && id < cache.ids.next && RowsOf(rows, id) == []
      requires forall v :: v in operations ==> operations[v].name in cache.downstream
      modifies this
      ensures Valid()
      ensures RowsFor(RowsOf(rows, id), id, operations, {})
      ensures forall e :: e != id ==> RowsOf(rows, e) == RowsOf(old(rows), e)
    {
      ghost var added := InsertRows(id, operations);
      RowsFiled(cache.World(), old(rows), added, id, operations);
    }

    /** Inserts a row for every value, in no particular order. */
    method InsertRows(id: Id, operations: map<string, Operation>) returns (ghost added: seq<Row>)
      modifies this
      ensures rows == old(rows) + added && RowsFor(added, id, operations, {})
    {
      var todo := operations.Keys;
      added := [];
      while todo != {}
        invariant todo <= operations.Keys
        invariant rows == old(rows) + added && RowsFor(added, id, operations, todo)
        decreases todo
      {
        var v :| v in todo;
        RowsOneMore(added, id, operations, todo, v);
        rows := rows + [Row(id, operations[v].name, v)];
        added := added + [Row(id, operations[v].name, v)];
        todo := todo - {v};
      }
    }

    lemma OwnRows(name: Id)
      requires Valid()
      ensures Linked(cache.World(), RowsOf(rows, name))
    {
      var mine := RowsOf(rows, name);
      forall i | 0 <= i < |mine|
        ensures mine[i].dependent in cache.downstream
      {
        RowsOfMember(rows, name, mine[i]);
      }
    }

    method PollRows(mine: seq<Row>, answers: nat -> bool) returns (r: Option<(bool, Values)>)
      requires Valid() && Linked(cache.World(), mine)
      modifies cache`upstream
      ensures Valid()
      ensures r.None? <==> Halts(old(cache.World()), mine)
      ensures r.Some? ==>
                && PolledAll(old(cache.World()), cache.World(), mine)
                && cache.World() == Run(old(cache.World()), Polls(mine, answers))
                && Collected(old(cache.World()), mine, answers, r.value.0, r.value.1)
    {
      ghost var w0 := cache.World();
      var sofar := (true, map[]);
      assert mine[..0] == [];
      for i := 0 to |mine|
        invariant Valid()
        invariant PolledAll(w0, cache.World(), mine[..i])
        invariant cache.World() == Run(w0, Polls(mine[..i], answers))
        invariant !HaltsWithin(w0, mine, i)
        invariant Collected(w0, mine[..i], answers, sofar.0, sofar.1)
      {
        assert mine[i].dependent in w0.cache.downstream;
        PollsOneMore(w0, mine, i, answers);
        HaltsOneMore(w0, mine, i);
        var next := PollRow(w0, mine, i, answers, sofar.0, sofar.1);
        if next.None? {
          assert HaltsAt(w0, mine, i);
          return None;
        }
        sofar := next.value;
      }
      assert mine[..|mine|] == mine;
      r := Some(sofar);
    }

    /** Polls the operation of one row and adds its answer; None is the halt on its payload. */
    method PollRow(ghost w0: World, mine: seq<Row>, n: nat, answers: nat -> bool, done: bool, results: Values)
      returns (r: Option<(bool, Values)>)
      requires Valid() && n < |mine| && mine[n].dependent in cache.downstream
      requires PolledAll(w0, cache.World(), mine[..n]) && Collected(w0, mine[..n], answers, done, results)
      modifies cache`upstream
      ensures Valid() && PolledAll(w0, cache.World(), mine[..n + 1])
      ensures cache.World() == PollWorld(old(cache.World()), mine[n].dependent, answers(n))
      ensures r.None? <==> HaltsAt(w0, mine, n)
      ensures r.Some? ==> Collected(w0, mine[..n + 1], answers, r.value.0, r.value.1)
    {
      var o := mine[n].dependent;
      NextPoll(w0, cache.World(), mine, n, answers(n));
      PollOneMore(w0, cache.World(), mine, n, answers(n));
      PollInv(cache.World(), o, answers(n));
      var operation := cache.GetOperation(o, answers(n));
      if !operation.done {
        CollectOne(w0, mine, n, answers, done, results, NO_IMAGE);
        return Some((false, results));
      }
      if !operation.result.GetResponse? {
        return None;
      }
      CollectOne(w0, mine, n, answers, done, results, operation.result.value.value);
      return Some((done, results[mine[n].value := operation.result.value]));
    }
  }

  /** After a poll that found every build recorded as done, the next poll halts the engine. */
  lemma DoneHaltsNext(w0: World, w: World, mine: seq<Row>)
    requires mine != [] && PolledAll(w0, w, mine) && AllBuilt(w0, mine)
    ensures Halts(w, mine)
  {
    assert PolledOne(w0, w, mine, mine[0].dependent);
    assert HaltsAt(w, mine, 0);
  }

  lemma PollsOneMore(w0: World, mine: seq<Row>, n: nat, answers: nat -> bool)
    requires n < |mine|
    ensures Run(w0, Polls(mine[..n + 1], answers)) ==
            PollWorld(Run(w0, Polls(mine[..n], answers)), mine[n].dependent, answers(n))
  {
    assert mine[..n + 1][..n] == mine[..n];
    var polls := Polls(mine[..n + 1], answers);
    assert polls[..|polls| - 1] == Polls(mine[..n], answers);
  }

  /** What Eval and GetOperation do to the services below is itself a run of them. */
  lemma HandlersAreRuns(steps: seq<Step>, values: seq<string>, skip: bool, graph: Option<AGraph>,
                        mine: seq<Row>, answers: nat -> bool)
    ensures Run(Apply(After(steps), NewId), Requests(values, skip, graph))
            == After(steps + [NewId] + Requests(values, skip, graph))
    ensures Run(After(steps), Polls(mine, answers)) == After(steps + Polls(mine, answers))
  {
    var next := steps + [NewId];
    assert next[..|next| - 1] == steps;
    RunConcat(INIT, next, Requests(values, skip, graph));
    RunConcat(INIT, steps, Polls(mine, answers));
  }
}
