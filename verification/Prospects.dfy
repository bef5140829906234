/** Which evaluations can still be answered done. */
module Prospects {
  import opened Wrappers
  import opened Actions
  import opened Protocol
  import opened Invariants
  import opened Hits
  import opened Samples
  import opened Answers
  import opened Engine
  import opened Evaluations
  import opened Handlers

  /** A poll started in the course of these moves is answered done. */
  predicate AnsweredBy(s: System, moves: seq<Move>, h: nat, name: Id) {
    var s' := PlayOn(s, moves);
    Complete(s', h) && s'.polling[h].name == name && PollingReply(s'.polling[h]).done
  }

  /** In some continuation the poll of the evaluation under this handle is answered done. */
  ghost predicate CanBeAnswered(s: System, h: nat, name: Id) {
    exists moves :: AnsweredBy(s, moves, h, name)
  }

  /** No row's operation is stored as done, or has its build abandoned, or is another row's too. */
  predicate Unspoilt(w: World, mine: seq<Row>)
    requires Linked(w, mine)
  {
    forall i :: 0 <= i < |mine| ==>
      && !StoredDone(w.cache, mine[i].dependent)
      && w.cache.downstream[mine[i].dependent] !in w.builder.abandoned
      && forall j :: 0 <= j < i ==> mine[j].dependent != mine[i].dependent
  }

  // ---------- What any continuation keeps ----------

  lemma LaterOn(w: World, w': World, w'': World)
    requires Later(w, w') && Later(w', w'')
    ensures Later(w, w'')
  {
    forall o
      ensures KeptOperation(w, w'', o)
    {
      assert KeptOperation(w, w', o) && KeptOperation(w', w'', o);
    }
    forall k
      ensures KeptBuild(w, w'', k)
    {
      assert KeptBuild(w, w', k) && KeptBuild(w', w'', k);
    }
    forall d, i
      ensures KeptEntry(w, w'', d, i)
    {
      assert KeptEntry(w, w', d, i) && KeptEntry(w', w'', d, i);
    }
  }

  /** The step of the services behind a move, if there is one. */
  lemma DoLater(s: System, m: Move)
    requires SystemInv(s)
    ensures Later(s.world, Do(s, m).world)
  {
    match m {
      case Other(step) =>
        ApplyIsLater(s.world, step);
      case EvalBegin(values, skip, graph) =>
        ApplyIsLater(s.world, NewId);
      case EvalAsk(id) =>
        if CanAsk(s, id) {
          ApplyIsLater(s.world, Get(NextRequest(s, id)));
        }
      case EvalFile(id, order) =>
      case PollBegin(h, name) =>
      case PollNext(h, answers) =>
        if CanPoll(s, h) {
          ApplyIsLater(s.world, Poll(NextOperation(s, h), answers));
        }
    }
  }

  ghost predicate KeptEvaluation(s: System, s': System, id: Id) {
    id in s.created ==> id in s'.created && RowsOf(s'.rows, id) == RowsOf(s.rows, id)
  }

  lemma DoKeepsEvaluation(s: System, m: Move, id: Id)
    requires SystemInv(s)
    ensures KeptEvaluation(s, Do(s, m), id)
  {
    if m.EvalFile? && !s.halted && CanFile(s, m.id, m.order) {
      assert AskingOk(s, m.id);
      FileRowsOf(s, m.id, m.order, id);
    }
  }

  /** When the poll reached the row, its operation was not stored as done, so it was not before either. */
  predicate NewRow(w0: World, p: Polling, i: int) {
    0 <= i < p.polled <= |p.mine| && p.done ==>
      && !StoredDone(w0.cache, p.mine[i].dependent)
      && forall j :: 0 <= j < i ==> p.mine[j].dependent != p.mine[i].dependent
  }

  ghost predicate NewPoll(s0: System, s: System, h: nat) {
    h in s.polling ==>
      && (s.polling[h].name in s0.created ==> s.polling[h].known)
      && forall i :: NewRow(s0.world, s.polling[h], i)
  }

  ghost predicate Continues(s0: System, s: System, h: nat) {
    && SystemInv(s) && Later(s0.world, s.world) && NewPoll(s0, s, h)
    && forall id :: KeptEvaluation(s0, s, id)
  }

  lemma PollRowIsNew(s0: System, s: System, h: nat, answers: bool)
    requires SystemInv(s) && Later(s0.world, s.world) && NewPoll(s0, s, h) && CanPoll(s, h)
    ensures NewPoll(s0, PollRow(s, h, answers), h)
  {
    var p, o := s.polling[h], NextOperation(s, h);
    assert PollingOk(s, h);
    PollAnswer(s.world, p.mine[p.polled], answers);
    assert KeptOperation(s0.world, s.world, o);
    var p' := PollRow(s, h, answers).polling[h];
    forall i
      ensures NewRow(s0.world, p', i)
    {
      assert NewRow(s0.world, p, i);
      forall j | 0 <= j < p.polled && p.done
        ensures StoredDone(s.world.cache, p.mine[j].dependent)
      {
        assert RowDone(s.world, p, j);
      }
    }
  }

  /** Only its own moves change a poll. */
  lemma DoKeepsPolling(s: System, m: Move, h: nat)
    requires (m.PollBegin? || m.PollNext?) ==> m.handle != h
    ensures h in Do(s, m).polling <==> h in s.polling
    ensures h in s.polling ==> Do(s, m).polling[h] == s.polling[h]
  {
  }

  lemma DoKeepsNewPoll(s0: System, s: System, m: Move, h: nat)
    requires Continues(s0, s, h)
    ensures NewPoll(s0, Do(s, m), h)
  {
    if (m.PollBegin? || m.PollNext?) && m.handle == h {
      if m.PollNext? && !s.halted && CanPoll(s, h) {
        PollRowIsNew(s0, s, h, m.answers);
      } else if m.PollBegin? {
        assert KeptEvaluation(s0, s, m.name);
      }
    } else {
      DoKeepsPolling(s, m, h);
    }
  }

  lemma {:induction false} PlayContinues(s: System, moves: seq<Move>, h: nat)
    requires SystemInv(s) && h !in s.polling
    ensures Continues(s, PlayOn(s, moves), h)
    decreases |moves|
  {
    if moves != [] {
      var n := |moves| - 1;
      var before := PlayOn(s, moves[..n]);
      PlayContinues(s, moves[..n], h);
      DoKeeps(before, moves[n]);
      DoLater(before, moves[n]);
      LaterOn(s.world, before.world, PlayOn(s, moves).world);
      DoKeepsNewPoll(s, before, moves[n], h);
      forall id
        ensures KeptEvaluation(s, PlayOn(s, moves), id)
      {
        assert KeptEvaluation(s, before, id);
        DoKeepsEvaluation(before, moves[n], id);
      }
    }
  }

  lemma AnsweredIsUnspoilt(s: System, moves: seq<Move>, h: nat, name: Id)
    requires SystemInv(s) && h !in s.polling && name in s.created && AnsweredBy(s, moves, h, name)
    requires Linked(s.world, RowsOf(s.rows, name))
    ensures Unspoilt(s.world, RowsOf(s.rows, name))
  {
    var s', mine := PlayOn(s, moves), RowsOf(s.rows, name);
    PlayContinues(s, moves, h);
    assert PollingOk(s', h) && KeptEvaluation(s, s', name);
    forall i | 0 <= i < |mine|
      ensures !StoredDone(s.world.cache, mine[i].dependent)
      ensures s.world.cache.downstream[mine[i].dependent] !in s.world.builder.abandoned
      ensures forall j :: 0 <= j < i ==> mine[j].dependent != mine[i].dependent
    {
      assert NewRow(s.world, s'.polling[h], i) && RowDone(s'.world, s'.polling[h], i);
      RowLater(s.world, s'.world, mine[i].dependent);
      assert Settled(s'.world.builder, s'.world.cache.downstream[mine[i].dependent]);
    }
  }

  // ---------- A continuation that answers it ----------

  lemma {:induction false} PlayOnConcat(s: System, moves: seq<Move>, more: seq<Move>)
    ensures PlayOn(s, moves + more) == PlayOn(PlayOn(s, moves), more)
    decreases |more|
  {
    if more == [] {
      assert moves + more == moves;
    } else {
      var n := |more| - 1;
      PlayOnConcat(s, moves, more[..n]);
      assert (moves + more)[..|moves + more| - 1] == moves + more[..n];
    }
  }

  function Others(steps: seq<Step>): seq<Move> {
    seq(|steps|, i requires 0 <= i < |steps| => Other(steps[i]))
  }

  lemma {:induction false} OthersRun(s: System, steps: seq<Step>)
    ensures PlayOn(s, Others(steps)) == s.(world := Run(s.world, steps))
    decreases |steps|
  {
    if steps != [] {
      var n := |steps| - 1;
      OthersRun(s, steps[..n]);
      assert Others(steps)[..n] == Others(steps[..n]);
    }
  }

  function PollMoves(h: nat, n: nat, answers: nat -> bool): seq<Move> {
    seq(n, i requires 0 <= i < n => PollNext(h, answers(i)))
  }

  lemma {:induction false} PollMovesPoll(s: System, h: nat, n: nat, answers: nat -> bool)
    ensures PlayOn(s, PollMoves(h, n, answers)) == PollFirst(s, h, n, answers)
    decreases n
  {
    if n > 0 {
      PollMovesPoll(s, h, n - 1, answers);
      assert PollMoves(h, n, answers)[..n - 1] == PollMoves(h, n - 1, answers);
    }
  }

  function PollAll(s: System, h: nat, name: Id): seq<Move> {
    [PollBegin(h, name)] + PollMoves(h, |RowsOf(s.rows, name)|, i => true)
  }

  lemma PollAllPolls(s: System, h: nat, name: Id)
    requires !s.halted && h !in s.polling
    ensures PlayOn(s, PollAll(s, h, name)) == PollFirst(Read(s, h, name), h, |RowsOf(s.rows, name)|, i => true)
  {
    var n := |RowsOf(s.rows, name)|;
    PlayOnConcat(s, [PollBegin(h, name)], PollMoves(h, n, i => true));
    assert [PollBegin(h, name)][..0] == [];
    PollMovesPoll(Read(s, h, name), h, n, i => true);
  }

  /** With every build recorded as done and nothing spoilt, a poll in one go is answered done. */
  lemma PolledIsDone(s: System, h: nat, name: Id)
    requires SystemInv(s) && !s.halted && h !in s.polling
    requires Linked(s.world, RowsOf(s.rows, name)) && Unspoilt(s.world, RowsOf(s.rows, name))
    requires AllBuilt(s.world, RowsOf(s.rows, name))
    ensures AnsweredBy(s, PollAll(s, h, name), h, name)
  {
    var mine := RowsOf(s.rows, name);
    PollAllPolls(s, h, name);
    PollInOneGo(s, h, name, |mine|, i => true);
    assert mine[..|mine|] == mine;
    assert !HaltsWithin(s.world, mine, |mine|);
  }

  lemma DrainedUnspoilt(w: World, t: seq<Step>, mine: seq<Row>)
    requires Linked(w, mine) && Unspoilt(w, mine)
    requires var w' := Run(w, t);
             && Inv(w') && w'.cache == w.cache && w'.builder.abandoned == w.builder.abandoned
             && w'.builder.queue == [] && w'.builder.running == map[]
    ensures Linked(Run(w, t), mine) && Unspoilt(Run(w, t), mine) && AllBuilt(Run(w, t), mine)
  {
    forall i | 0 <= i < |mine|
      ensures Built(Run(w, t), mine[i].dependent)
    {
      DrainedIsBuilt(Run(w, t), mine[i].dependent);
    }
  }

  lemma UnspoiltCanBeAnswered(s: System, h: nat, name: Id)
    requires SystemInv(s) && !s.halted && h !in s.polling
    requires Linked(s.world, RowsOf(s.rows, name)) && Unspoilt(s.world, RowsOf(s.rows, name))
    ensures CanBeAnswered(s, h, name)
  {
    var t := Drained(s.world);
    var built := s.(world := Run(s.world, t));
    OthersRun(s, t);
    PlayContinues(s, Others(t), h);
    DrainedUnspoilt(s.world, t, RowsOf(s.rows, name));
    PolledIsDone(built, h, name);
    PlayOnConcat(s, Others(t), PollAll(built, h, name));
    assert AnsweredBy(s, Others(t) + PollAll(built, h, name), h, name);
  }

  /**
   A new poll of an evaluation is answered done in some continuation exactly if its rows have
   operations of their own, none stored as done yet, and none of whose builds was given up.
   */
  lemma CanBeAnsweredIff(moves: seq<Move>, h: nat, name: Id)
    requires var s := Play(moves);
             !s.halted && h !in s.polling && name in s.created
    ensures var s := Play(moves);
            && Linked(s.world, RowsOf(s.rows, name))
            && (CanBeAnswered(s, h, name) <==> Unspoilt(s.world, RowsOf(s.rows, name)))
  {
    var s := Play(moves);
    PlayKeeps(moves);
    EvaluationLinked(s, name);
    if more :| AnsweredBy(s, more, h, name) {
      AnsweredIsUnspoilt(s, more, h, name);
    }
    if Unspoilt(s.world, RowsOf(s.rows, name)) {
      UnspoiltCanBeAnswered(s, h, name);
    }
  }

  // ---------- Two values of one operation ----------

  /** If two names of an evaluation were answered with one operation, no new poll of it is ever answered done. */
  lemma SharedNeverAnswered(moves: seq<Move>, h: nat, name: Id, u: string, v: string)
    requires var s := Play(moves);
             !s.halted && h !in s.polling && name in s.created
    requires var e := Play(moves).created[name];
             && u in e.operations && v in e.operations && u != v
             && e.operations[u].name == e.operations[v].name
    ensures !CanBeAnswered(Play(moves), h, name)
  {
    var s := Play(moves);
    var mine := RowsOf(s.rows, name);
    PlayKeeps(moves);
    assert CreatedOk(s, name);
    CanBeAnsweredIff(moves, h, name);
    SharedIsSpoilt(s.world, mine, s.created[name], u, v);
  }

  lemma SharedIsSpoilt(w: World, mine: seq<Row>, e: Asking, u: string, v: string)
    requires Linked(w, mine) && RowsAre(mine, e)
    requires u in e.operations && v in e.operations && u != v && e.operations[u].name == e.operations[v].name
    ensures !Unspoilt(w, mine)
  {
    assert ValueIn(mine, u) && ValueIn(mine, v);
    var i :| 0 <= i < |mine| && mine[i].value == u;
    var j :| 0 <= j < |mine| && mine[j].value == v;
    assert mine[i].dependent == mine[j].dependent;
  }

  /** A second name for the build action that the request asks for. */
  predicate Twin(req: GetRequest, v: string) {
    Buildable(req) && v != req.value && MainAction(req.(value := v)) == MainAction(req)
  }

  /** There are such names. */
  lemma SomeTwin() returns (req: GetRequest, v: string)
    ensures Twin(req, v)
  {
    var config := BuildImageConfig("", "", "", Some(CommitPoint("", "", "", "")), []);
    var action := Action("build-image", BuildImage(config));
    var g := AGraph("", map["build" := action, "" := action]);
    req, v := GetRequest(false, Some(g), ".build"), "";
    assert req.value == g.name + "." + "build";
    GetActionFinds(g, req.value, action);
    GetActionFinds(g, v, action);
  }

  /** The evaluation of both names: the second is answered with the operation of the first. */
  function BothFiled(req: GetRequest, v: string): seq<Move> {
    BothAsked(req, v) + [EvalFile(0, [req.value, v])]
  }

  function BothAsked(req: GetRequest, v: string): seq<Move> {
    FirstAsked(req, v) + [EvalAsk(0)]
  }

  function FirstAsked(req: GetRequest, v: string): seq<Move> {
    [EvalBegin([req.value, v], req.skipCaching, req.graph)] + [EvalAsk(0)]
  }

  lemma AfterFirstAsked(req: GetRequest, v: string)
    requires Twin(req, v)
    ensures Misses(Apply(INIT, NewId).cache, req)
    ensures Play(FirstAsked(req, v)) ==
            System(Miss(Apply(INIT, NewId), req), [], map[],
                   map[0 := Asking([req.value, v], req.skipCaching, req.graph, 1, false,
                                   map[req.value := Operation(3, false, GetResponse(None))])], map[], false)
  {
    AfterRequest(req);
    var begun := [EvalBegin([req.value, v], req.skipCaching, req.graph)];
    assert [] + begun == begun;
    PlayNext([], begun[0]);
    assert NextRequest(Play(begun), 0) == req;
    PlayNext(begun, EvalAsk(0));
  }

  lemma SecondIsHit(req: GetRequest, v: string)
    requires Twin(req, v) && Misses(Apply(INIT, NewId).cache, req)
    ensures var w, second := Miss(Apply(INIT, NewId), req), req.(value := v);
            Hit(w.cache, second) == Some(3) && GetReply(w, second) == Replied(Operation(3, true, GetResponse(None)))
  {
    MissServesIff(Apply(INIT, NewId), req, req.(value := v));
  }

  lemma AfterBothAsked(req: GetRequest, v: string)
    requires Twin(req, v)
    ensures var s := Play(BothAsked(req, v));
            && s.polling == map[] && !s.halted && 0 in s.asking && s.created == map[]
            && s.asking[0].values == [req.value, v] && s.asking[0].served == 2
            && s.asking[0].operations.Keys == {req.value, v}
            && s.asking[0].operations[req.value].name == s.asking[0].operations[v].name
  {
    AfterFirstAsked(req, v);
    SecondIsHit(req, v);
    assert NextRequest(Play(FirstAsked(req, v)), 0) == req.(value := v);
    PlayNext(FirstAsked(req, v), EvalAsk(0));
  }

  /** An evaluation of two names that no poll is ever answered done for. */
  lemma TwinsNeverAnswered(req: GetRequest, v: string, h: nat)
    requires Twin(req, v)
    ensures 0 in Play(BothFiled(req, v)).created && !CanBeAnswered(Play(BothFiled(req, v)), h, 0)
  {
    AfterBothAsked(req, v);
    PlayNext(BothAsked(req, v), EvalFile(0, [req.value, v]));
    SharedNeverAnswered(BothFiled(req, v), h, 0, req.value, v);
  }
}
