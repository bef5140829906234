/** The requests behind evaluations: what their answers' builds have to do with what was asked for. */
module Served {
  import opened Protocol
  import opened Invariants
  import opened Hits
  import opened Evaluations

  /** The steps of the services that a move takes. */
  function StepsOf(s: System, m: Move): seq<Step> {
    match m
    case Other(step) => [step]
    case EvalBegin(_, _, _) => if s.halted then [] else [NewId]
    case EvalAsk(id) => if !s.halted && CanAsk(s, id) then [Get(NextRequest(s, id))] else []
    case EvalFile(_, _) => []
    case PollBegin(_, _) => []
    case PollNext(h, answers) => if !s.halted && CanPoll(s, h) then [Poll(NextOperation(s, h), answers)] else []
  }

  function Trace(moves: seq<Move>): seq<Step> {
    if moves == [] then []
    else
      var n := |moves| - 1;
      Trace(moves[..n]) + StepsOf(Play(moves[..n]), moves[n])
  }

  lemma RunOne(w: World, s: Step)
    ensures Run(w, [s]) == Apply(w, s)
  {
    assert [s][..|[s]| - 1] == [];
    assert Run(w, []) == w;
  }

  lemma MoveRuns(s: System, m: Move)
    ensures Do(s, m).world == Run(s.world, StepsOf(s, m))
  {
    if StepsOf(s, m) != [] {
      RunOne(s.world, StepsOf(s, m)[0]);
    }
  }

  /** The services behind any moves are in the state after a run of theirs, of which everything said of runs holds. */
  lemma {:induction false} TraceRuns(moves: seq<Move>)
    ensures Play(moves).world == After(Trace(moves))
    decreases |moves|
  {
    if moves != [] {
      var n := |moves| - 1;
      TraceRuns(moves[..n]);
      MoveRuns(Play(moves[..n]), moves[n]);
      RunConcat(INIT, Trace(moves[..n]), StepsOf(Play(moves[..n]), moves[n]));
    }
  }

  /**
   Whatever happened in between: the build behind a value of an evaluation has the commit, branch
   and targets of the action asked for exactly if the request that once started it, this one or
   another, named one commit, and the build has all those targets; if the value was answered done,
   it always has them.
   */
  lemma ValueMeetsIff(moves: seq<Move>, id: Id, v: string) returns (k: int)
    requires id in Play(moves).created && v in Play(moves).created[id].values
    ensures var s, e := Play(moves), Play(moves).created[id];
            && v in e.operations && MainAction(RequestFor(e, v)).Some?
            && var o, action := e.operations[v], MainAction(RequestFor(e, v)).value;
               && FiledBy(Trace(moves), k, o.name)
               && o.name in s.world.cache.downstream && s.world.cache.downstream[o.name] in s.world.builder.info
               && var info := s.world.builder.info[s.world.cache.downstream[o.name]];
                  && (Meets(info, action) <==> OneCommit(Trace(moves)[k].req) && HasTargets(info, action))
                  && (o.done ==> HasTargets(info, action))
  {
    var s, e := Play(moves), Play(moves).created[id];
    PlayKeeps(moves);
    TraceRuns(moves);
    assert CreatedOk(s, id);
    ServedAll(s.world, e, v);
    var o, req := e.operations[v], RequestFor(e, v);
    var d, i :| Serving(s.world.cache, req, d, i, o);
    assert EntryRecorded(s.world, d, i);
    k := EntryMeetsIff(Trace(moves), d, i, MainAction(req).value);
  }
}
