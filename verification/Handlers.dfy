/**
 The engine's handlers taken in one go are the engine's moves with nothing in between: what
 holds of all interleavings holds of the service, and its contracts hold of the moves.
 */
module Handlers {
  import opened Wrappers
  import opened Actions
  import opened Protocol
  import opened Invariants
  import opened Engine
  import opened Evaluations

  /** The first n polls of a poll of an evaluation. */
  function PollFirst(s: System, h: nat, n: nat, answers: nat -> bool): System {
    if n == 0 then s else Do(PollFirst(s, h, n - 1, answers), PollNext(h, answers(n - 1)))
  }

  /** What has been collected when n rows have been polled, as the service's contract has it. */
  ghost predicate Polled(s0: System, s: System, h: nat, name: Id, n: nat, answers: nat -> bool)
    requires n <= |RowsOf(s0.rows, name)|
  {
    && h in s.polling && s.polling[h].mine == RowsOf(s0.rows, name) && s.polling[h].polled == n
    && s.polling[h].name == name && (s.polling[h].known <==> name in s0.created)
    && Collects(s0.world, s.world, s.polling[h].mine[..n], answers, s.polling[h].done, s.polling[h].results)
  }

  ghost predicate Collects(w0: World, w: World, mine: seq<Row>, answers: nat -> bool, done: bool, results: Values) {
    && w == Run(w0, Polls(mine, answers)) && PolledAll(w0, w, mine)
    && Collected(w0, mine, answers, done, results)
  }

  lemma CollectsOneMore(w0: World, w: World, mine: seq<Row>, n: nat, answers: nat -> bool,
                        done: bool, results: Values)
    requires Inv(w) && n < |mine| && mine[n].dependent in w.cache.downstream
    requires Collects(w0, w, mine[..n], answers, done, results)
    ensures var o := mine[n].dependent;
            var reply := PollReply(w, o, answers(n));
            && (reply.done && !reply.result.GetResponse? <==> HaltsAt(w0, mine, n))
            && (!reply.done ==>
                  Collects(w0, PollWorld(w, o, answers(n)), mine[..n + 1], answers, false, results))
            && (reply.done && reply.result.GetResponse? ==>
                  Collects(w0, PollWorld(w, o, answers(n)), mine[..n + 1], answers, done,
                           results[mine[n].value := reply.result.value]))
  {
    NextPoll(w0, w, mine, n, answers(n));
    PollOneMore(w0, w, mine, n, answers(n));
    PollsOneMore(w0, mine, n, answers);
    var reply := PollReply(w, mine[n].dependent, answers(n));
    if !reply.done {
      CollectOne(w0, mine, n, answers, done, results, NO_IMAGE);
    } else if reply.result.GetResponse? {
      CollectOne(w0, mine, n, answers, done, results, reply.result.value.value);
    }
  }

  lemma PolledOneMore(s0: System, s: System, h: nat, name: Id, n: nat, answers: nat -> bool)
    requires Inv(s.world) && !s.halted && n < |RowsOf(s0.rows, name)| && Polled(s0, s, h, name, n, answers)
    requires RowsOf(s0.rows, name)[n].dependent in s.world.cache.downstream
    ensures var s' := PollRow(s, h, answers(n));
            && (s'.halted <==> HaltsAt(s0.world, RowsOf(s0.rows, name), n))
            && (!s'.halted ==> Polled(s0, s', h, name, n + 1, answers))
  {
    var p := s.polling[h];
    CollectsOneMore(s0.world, s.world, p.mine, n, answers, p.done, p.results);
  }

  /** After n rows: halted exactly under the service's condition, and otherwise as its contract has it. */
  ghost predicate PollGoes(s0: System, s: System, h: nat, name: Id, n: nat, answers: nat -> bool)
    requires n <= |RowsOf(s0.rows, name)|
  {
    && (s.halted <==> HaltsWithin(s0.world, RowsOf(s0.rows, name), n))
    && (!s.halted ==> Polled(s0, s, h, name, n, answers))
  }

  lemma PollGoesOn(s0: System, s: System, h: nat, name: Id, n: nat, answers: nat -> bool)
    requires Inv(s.world) && n < |RowsOf(s0.rows, name)| && PollGoes(s0, s, h, name, n, answers)
    requires !s.halted ==> Linked(s.world, RowsOf(s0.rows, name))
    ensures PollGoes(s0, Do(s, PollNext(h, answers(n))), h, name, n + 1, answers)
  {
    HaltsOneMore(s0.world, RowsOf(s0.rows, name), n);
    if !s.halted {
      PolledOneMore(s0, s, h, name, n, answers);
    }
  }

  /**
   Polled in one go, an evaluation halts the engine exactly under the service's condition, and
   otherwise collects what the service's contract says, after the same run of the services.
   */
  lemma {:induction false} PollInOneGo(s: System, h: nat, name: Id, n: nat, answers: nat -> bool)
    requires SystemInv(s) && !s.halted && h !in s.polling && n <= |RowsOf(s.rows, name)|
    ensures SystemInv(PollFirst(Read(s, h, name), h, n, answers))
    ensures PollGoes(s, PollFirst(Read(s, h, name), h, n, answers), h, name, n, answers)
    decreases n
  {
    if n == 0 {
      ReadKeeps(s, h, name);
      assert RowsOf(s.rows, name)[..0] == [];
    } else {
      var before := PollFirst(Read(s, h, name), h, n - 1, answers);
      PollInOneGo(s, h, name, n - 1, answers);
      DoKeeps(before, PollNext(h, answers(n - 1)));
      if !before.halted {
        assert PollingOk(before, h);
      }
      PollGoesOn(s, before, h, name, n - 1, answers);
    }
  }

  /** The first n requests of a creation. */
  function AskFirst(s: System, id: Id, n: nat): System {
    if n == 0 then s else Do(AskFirst(s, id, n - 1), EvalAsk(id))
  }

  /** The creation goes on, with the answers to its first n values. */
  ghost predicate Asked(s: System, id: Id, w: World, values: seq<string>, skip: bool, graph: Option<AGraph>, n: nat)
    requires n <= |values|
  {
    && id in s.asking && s.asking[id].values == values && s.asking[id].served == n
    && s.asking[id].skip == skip && s.asking[id].graph == graph
    && HasAnswers(s.world, w, values[..n], skip, graph, s.asking[id].done, s.asking[id].operations)
  }

  /** These are the answers to the requests for the values, and world the state after them. */
  ghost predicate HasAnswers(world: World, w: World, values: seq<string>, skip: bool, graph: Option<AGraph>,
                          done: bool, operations: map<string, Operation>)
  {
    && world == Run(w, Requests(values, skip, graph))
    && FetchedAll(w, values, skip, graph, operations)
    && Fetching(w, world, done, operations)
  }

  lemma AnswersOneMore(world: World, w: World, values: seq<string>, n: nat, skip: bool, graph: Option<AGraph>,
                       done: bool, operations: map<string, Operation>, o: Operation)
    requires Inv(world) && n < |values| && HasAnswers(world, w, values[..n], skip, graph, done, operations)
    requires GetReply(world, GetRequest(skip, graph, values[n])) == Replied(o)
    ensures HasAnswers(GetWorld(world, GetRequest(skip, graph, values[n])), w, values[..n + 1], skip, graph,
                    done && o.done, operations[values[n] := o])
  {
    RequestsOneMore(w, values, n, skip, graph);
    FetchingOneMore(w, world, GetRequest(skip, graph, values[n]), values[n], done, operations);
    FetchOneMore(w, values, n, skip, graph, operations, o);
  }

  /** The creation has ended at the first request that was not answered. */
  ghost predicate Refused(s: System, id: Id, w: World, values: seq<string>, skip: bool, graph: Option<AGraph>, n: nat)
    requires n <= |values|
  {
    && id !in s.asking
    && exists i :: RefusedAt(s, w, values, skip, graph, n, i)
  }

  predicate RefusedAt(s: System, w: World, values: seq<string>, skip: bool, graph: Option<AGraph>, n: nat, i: int)
    requires n <= |values|
  {
    && 0 <= i < n && s.world == Run(w, Requests(values[..i], skip, graph))
    && !GetReply(s.world, GetRequest(skip, graph, values[i])).Replied?
  }

  /** After n requests: either all were answered, or one was refused and ended the creation. */
  ghost predicate AskGoes(s: System, id: Id, w: World, values: seq<string>, skip: bool, graph: Option<AGraph>, n: nat)
    requires n <= |values|
  {
    && !s.halted && Inv(s.world)
    && (Asked(s, id, w, values, skip, graph, n) || Refused(s, id, w, values, skip, graph, n))
  }

  lemma AskIsAnswered(s: System, id: Id, w: World, values: seq<string>, skip: bool, graph: Option<AGraph>, n: nat)
    requires Inv(s.world) && n < |values| && Asked(s, id, w, values, skip, graph, n)
    requires GetReply(s.world, GetRequest(skip, graph, values[n])).Replied?
    ensures Asked(Ask(s, id), id, w, values, skip, graph, n + 1)
  {
    var e, o := s.asking[id], GetReply(s.world, GetRequest(skip, graph, values[n])).operation;
    AnswersOneMore(s.world, w, values, n, skip, graph, e.done, e.operations, o);
    assert Ask(s, id).asking[id] == WithAnswer(e, o);
  }

  lemma AskIsRefused(s: System, id: Id, w: World, values: seq<string>, skip: bool, graph: Option<AGraph>, n: nat)
    requires n < |values| && Asked(s, id, w, values, skip, graph, n)
    requires !GetReply(s.world, GetRequest(skip, graph, values[n])).Replied?
    ensures Refused(Ask(s, id), id, w, values, skip, graph, n + 1)
  {
    assert GetWorld(s.world, GetRequest(skip, graph, values[n])) == s.world;
    assert RefusedAt(Ask(s, id), w, values, skip, graph, n + 1, n);
  }

  lemma AskGoesOn(s: System, id: Id, w: World, values: seq<string>, skip: bool, graph: Option<AGraph>, n: nat)
    requires n < |values| && AskGoes(s, id, w, values, skip, graph, n)
    ensures AskGoes(Do(s, EvalAsk(id)), id, w, values, skip, graph, n + 1)
  {
    if Asked(s, id, w, values, skip, graph, n) {
      ApplyInv(s.world, Get(NextRequest(s, id)));
      if GetReply(s.world, GetRequest(skip, graph, values[n])).Replied? {
        AskIsAnswered(s, id, w, values, skip, graph, n);
      } else {
        AskIsRefused(s, id, w, values, skip, graph, n);
      }
    } else {
      var i :| RefusedAt(s, w, values, skip, graph, n, i);
      assert RefusedAt(s, w, values, skip, graph, n + 1, i);
    }
  }

  lemma AskStarts(s: System, values: seq<string>, skip: bool, graph: Option<AGraph>)
    requires Inv(s.world) && !s.halted
    ensures AskGoes(Begin(s, values, skip, graph), s.world.nextId, Apply(s.world, NewId), values, skip, graph, 0)
  {
    NewIdInv(s.world);
    assert values[..0] == [];
  }

  /**
   Asked in one go, a creation either gets, for each value, the answer to the last request for
   it, or ends at the first request refused; the services take the same run as in the contract
   of Eval.
   */
  lemma {:induction false} AskInOneGo(s: System, values: seq<string>, skip: bool, graph: Option<AGraph>, n: nat)
    requires Inv(s.world) && !s.halted && n <= |values|
    ensures AskGoes(AskFirst(Begin(s, values, skip, graph), s.world.nextId, n), s.world.nextId,
                    Apply(s.world, NewId), values, skip, graph, n)
    decreases n
  {
    if n == 0 {
      AskStarts(s, values, skip, graph);
    } else {
      AskInOneGo(s, values, skip, graph, n - 1);
      AskGoesOn(AskFirst(Begin(s, values, skip, graph), s.world.nextId, n - 1), s.world.nextId,
                Apply(s.world, NewId), values, skip, graph, n - 1);
    }
  }

  lemma {:induction false} AskFirstRows(s: System, id: Id, n: nat)
    ensures AskFirst(s, id, n).rows == s.rows
  {
    if n > 0 {
      AskFirstRows(s, id, n - 1);
      AskKeepsRows(AskFirst(s, id, n - 1), id);
    }
  }

  lemma AskKeepsRows(s: System, id: Id)
    ensures Do(s, EvalAsk(id)).rows == s.rows
  {
  }

  /** What filing leaves, as the contract of Eval has it. */
  ghost predicate FiledAs(rows: seq<Row>, s: System, id: Id, w: World, values: seq<string>,
                          skip: bool, graph: Option<AGraph>)
  {
    && id in s.created
    && var reply := CreationReply(id, s.created[id]);
       && (reply.done <==> s.world.builder == w.builder)
       && (forall v :: v in reply.values <==> reply.done && v in values)
       && (forall e :: e != id ==> RowsOf(s.rows, e) == RowsOf(rows, e))
       && Filed(w, values, skip, graph, RowsOf(s.rows, id), id, reply.values)
  }

  lemma RepliedAs(id: Id, w: World, world: World, e: Asking)
    requires HasAnswers(world, w, e.values, e.skip, e.graph, e.done, e.operations)
    ensures var reply := CreationReply(id, e);
            && (reply.done <==> world.builder == w.builder)
            && (forall v :: v in reply.values <==> reply.done && v in e.values)
            && ValuesOf(reply.values, e.operations)
  {
    FetchedKeys(w, e.values, e.skip, e.graph, e.operations);
  }

  lemma FiledFrom(w: World, e: Asking, mine: seq<Row>, id: Id, results: Values)
    requires FetchedAll(w, e.values, e.skip, e.graph, e.operations)
    requires RowsFor(mine, id, e.operations, {}) && ValuesOf(results, e.operations)
    ensures Filed(w, e.values, e.skip, e.graph, mine, id, results)
  {
  }

  lemma FileReplies(s: System, id: Id, w: World, order: seq<string>)
    requires CanFile(s, id, order) && RowsOf(s.rows, id) == []
    requires var e := s.asking[id];
             HasAnswers(s.world, w, e.values, e.skip, e.graph, e.done, e.operations)
    ensures FiledAs(s.rows, File(s, id, order), id, w, s.asking[id].values, s.asking[id].skip, s.asking[id].graph)
  {
    var e := s.asking[id];
    var added := NewRows(id, e.operations, order);
    FileAddsRows(s, id, order);
    RepliedAs(id, w, s.world, e);
    NewRowsAreRowsFor(id, e.operations, order);
    FiledFrom(w, e, added, id, CreationReply(id, e).values);
  }

  lemma FileAddsRows(s: System, id: Id, order: seq<string>)
    requires CanFile(s, id, order) && RowsOf(s.rows, id) == []
    ensures forall i :: RowsOf(File(s, id, order).rows, i) ==
              if i == id then NewRows(id, s.asking[id].operations, order) else RowsOf(s.rows, i)
  {
    var added := NewRows(id, s.asking[id].operations, order);
    forall i
      ensures RowsOf(File(s, id, order).rows, i) == if i == id then added else RowsOf(s.rows, i)
    {
      FileRowsOf(s, id, order, i);
      assert [] + added == added;
    }
  }

  lemma FileGoes(s: System, id: Id, w: World, values: seq<string>, skip: bool, graph: Option<AGraph>,
                 order: seq<string>)
    requires AskGoes(s, id, w, values, skip, graph, |values|)
    requires CanFile(s, id, order) && RowsOf(s.rows, id) == []
    ensures FiledAs(s.rows, Do(s, EvalFile(id, order)), id, w, values, skip, graph)
  {
    assert values[..|values|] == values;
    FileReplies(s, id, w, order);
  }

  /**
   Filed in one go, in any order, an evaluation has the rows, and its client the reply, that the
   contract of Eval says: one row per value with the last answer for it, done exactly if no build
   was started, and only then values.
   */
  lemma CreateInOneGo(s: System, values: seq<string>, skip: bool, graph: Option<AGraph>, order: seq<string>)
    requires Inv(s.world) && RowsLinked(s.world, s.rows) && !s.halted
    requires CanFile(AskFirst(Begin(s, values, skip, graph), s.world.nextId, |values|), s.world.nextId, order)
    ensures FiledAs(s.rows,
                    Do(AskFirst(Begin(s, values, skip, graph), s.world.nextId, |values|),
                       EvalFile(s.world.nextId, order)),
                    s.world.nextId, Apply(s.world, NewId), values, skip, graph)
  {
    AskInOneGo(s, values, skip, graph, |values|);
    AskFirstRows(Begin(s, values, skip, graph), s.world.nextId, |values|);
    NoRowsYet(s);
    FileGoes(AskFirst(Begin(s, values, skip, graph), s.world.nextId, |values|), s.world.nextId,
             Apply(s.world, NewId), values, skip, graph, order);
  }

  lemma NoRowsYet(s: System)
    requires RowsLinked(s.world, s.rows)
    ensures RowsOf(s.rows, s.world.nextId) == []
  {
    forall i | 0 <= i < |s.rows|
      ensures s.rows[i].evaluation != s.world.nextId
    {
      assert RowLinked(s.world, s.rows[i]);
    }
    RowsOfNone(s.rows, s.world.nextId);
  }

  lemma NewRowsAreRowsFor(id: Id, operations: map<string, Operation>, order: seq<string>)
    requires forall v :: v in order <==> v in operations
    requires forall i, j :: 0 <= i < j < |order| ==> order[i] != order[j]
    ensures RowsFor(NewRows(id, operations, order), id, operations, {})
  {
    forall v | v in operations
      ensures ValueIn(NewRows(id, operations, order), v)
    {
      NewRowsFor(id, operations, order, v);
    }
  }
}
