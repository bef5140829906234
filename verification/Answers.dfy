/** What polls and hits are answered over whole runs, and which answers stay for ever. */
module Answers {
  import opened Wrappers
  import opened Protocol
  import opened Invariants
  import opened Samples

  // ---------- Done is for ever ----------

  lemma {:induction false} DoneStored(s: seq<Step>, t: seq<Step>, o: Id)
    requires StoredDone(After(s).cache, o)
    ensures StoredDone(After(s + t).cache, o) && After(s + t).cache.upstream[o] == After(s).cache.upstream[o]
    decreases |t|
  {
    if t == [] {
      assert s + t == s;
    } else {
      var n := |t| - 1;
      DoneStored(s, t[..n], o);
      assert (s + t)[..|s + t| - 1] == s + t[..n];
    }
  }

  /** The build behind an operation is recorded as done. */
  predicate Built(w: World, o: Id) {
    o in w.cache.downstream && BuildDone(w.builder, w.cache.downstream[o])
  }

  /** A step of the run polled the operation when its build was recorded as done. */
  predicate PolledWhenBuilt(steps: seq<Step>, o: Id, i: int) {
    0 <= i < |steps| && steps[i].Poll? && steps[i].name == o && Built(After(steps[..i]), o)
  }

  lemma StepStoredDone(w: World, s: Step, o: Id)
    requires Inv(w)
    ensures StoredDone(Apply(w, s).cache, o) <==>
            StoredDone(w.cache, o) || (s.Poll? && s.name == o && Built(w, o))
  {
    assert Answered(w, o);
  }

  /** The cache knows an operation as done exactly if it has been polled since its build was recorded as done. */
  lemma {:induction false} StoredDoneIffPolled(steps: seq<Step>, o: Id)
    ensures StoredDone(After(steps).cache, o) <==> exists i :: PolledWhenBuilt(steps, o, i)
    decreases |steps|
  {
    if steps != [] {
      var n := |steps| - 1;
      var before := steps[..n];
      StoredDoneIffPolled(before, o);
      AlwaysInv(before);
      StepStoredDone(After(before), steps[n], o);
      assert PolledWhenBuilt(steps, o, n) <==>
             steps[n].Poll? && steps[n].name == o && Built(After(before), o);
      forall i | 0 <= i < n
        ensures PolledWhenBuilt(before, o, i) <==> PolledWhenBuilt(steps, o, i)
      {
        assert before[..i] == steps[..i];
      }
      if i :| PolledWhenBuilt(before, o, i) {
        assert PolledWhenBuilt(steps, o, i);
      }
    }
  }

  /**
   Every hit is answered done; it comes with an image exactly if someone has polled the
   operation since its build was recorded as done, and with an empty value otherwise.
   */
  lemma HitImageIffPolled(steps: seq<Step>, req: GetRequest, o: Id)
    requires Hit(After(steps).cache, req) == Some(o)
    ensures var reply := GetReply(After(steps), req);
            && reply.Replied? && reply.operation.name == o && reply.operation.done
            && reply.operation.result.GetResponse?
            && (reply.operation.result.value.Some? <==> exists i :: PolledWhenBuilt(steps, o, i))
  {
    StoredDoneIffPolled(steps, o);
    AlwaysInv(steps);
    assert Answered(After(steps), o);
  }

  /** The image an operation carries, under either of the two payloads. */
  function ImageOf(p: Payload): Option<Image> {
    match p
    case NoPayload => None
    case BuildResponse(image) => Some(image)
    case GetResponse(value) => value
  }

  /**
   Once a poll of an operation is answered done, every later poll and every later hit on it is
   done with the same image name, tag and digest, whatever the registry says by then.
   */
  lemma DoneImageForEver(s: seq<Step>, t: seq<Step>, o: Id, now: bool, later: bool, req: GetRequest)
    requires o in After(s).cache.downstream && PollReply(After(s), o, now).done
    ensures var first := PollReply(After(s), o, now);
            var w := After(s + [Poll(o, now)] + t);
            var again := PollReply(w, o, later);
            && ImageOf(first.result).Some?
            && again.done && ImageOf(again.result) == ImageOf(first.result)
            && (Hit(w.cache, req) == Some(o) ==>
                  GetReply(w, req) == Replied(Operation(o, true, GetResponse(ImageOf(first.result)))))
  {
    var polled := s + [Poll(o, now)];
    assert polled[..|polled| - 1] == s;
    assert After(polled) == PollWorld(After(s), o, now);
    AlwaysInv(s);
    assert Answered(After(s), o);
    DoneStored(polled, t, o);
    AlwaysInv(polled + t);
    assert Answered(After(polled + t), o);
  }

  // ---------- Builds that are given up ----------

  lemma {:induction false} AbandonedStays(s: seq<Step>, t: seq<Step>, k: Id)
    requires k in After(s).builder.abandoned
    ensures k in After(s + t).builder.abandoned
    decreases |t|
  {
    if t == [] {
      assert s + t == s;
    } else {
      var n := |t| - 1;
      AbandonedStays(s, t[..n], k);
      assert (s + t)[..|s + t| - 1] == s + t[..n];
    }
  }

  lemma {:induction false} DownstreamStays(s: seq<Step>, t: seq<Step>, o: Id)
    requires o in After(s).cache.downstream
    ensures o in After(s + t).cache.downstream
    ensures After(s + t).cache.downstream[o] == After(s).cache.downstream[o]
    decreases |t|
  {
    if t == [] {
      assert s + t == s;
    } else {
      var n := |t| - 1;
      DownstreamStays(s, t[..n], o);
      assert (s + t)[..|s + t| - 1] == s + t[..n];
      AlwaysInv(s + t[..n]);
      assert HasBuild(After(s + t[..n]), o);
    }
  }

  /** The operation of a build whose worker gave up is never answered done, however long it is polled. */
  lemma AbandonedNeverDone(s: seq<Step>, t: seq<Step>, o: Id, answers: bool)
    requires o in After(s).cache.downstream
    requires After(s).cache.downstream[o] in After(s).builder.abandoned
    ensures !PollReply(After(s + t), o, answers).done
  {
    var k := After(s).cache.downstream[o];
    AbandonedStays(s, t, k);
    DownstreamStays(s, t, o);
    AlwaysInv(s + t);
    assert Settled(After(s + t).builder, k) && Answered(After(s + t), o);
  }

  /** An answer of done to a poll means the build behind is recorded as done, then and ever after. */
  lemma {:induction false} PolledDoneIsBuilt(s: seq<Step>, t: seq<Step>, o: Id, answers: bool)
    requires o in After(s).cache.downstream && PollReply(After(s), o, answers).done
    ensures o in After(s + t).cache.downstream
    ensures BuildDone(After(s + t).builder, After(s + t).cache.downstream[o])
    decreases |t|
  {
    DownstreamStays(s, t, o);
    if t == [] {
      assert s + t == s;
      AlwaysInv(s);
      assert Answered(After(s), o);
    } else {
      var n := |t| - 1;
      PolledDoneIsBuilt(s, t[..n], o, answers);
      DownstreamStays(s, t[..n], o);
      assert (s + t)[..|s + t| - 1] == s + t[..n];
    }
  }

  // ---------- Which operations can be done ----------

  /** Some continuation of the run has the operation answered done. */
  ghost predicate CanBeDone(w: World, o: Id) {
    exists t, answers :: PollReply(Run(w, t), o, answers).done
  }

  lemma RunFirst(w: World, s: Step, t: seq<Step>)
    ensures Run(w, [s] + t) == Run(Apply(w, s), t)
  {
    RunConcat(w, [s], t);
    assert [s][..|[s]| - 1] == [];
    assert Run(w, []) == w && Run(w, [s]) == Apply(w, s);
  }

  /** Everything queued is taken up, and every watch runs out of time; nothing is polled or given up. */
  lemma {:induction false} Drained(w: World) returns (t: seq<Step>)
    requires Inv(w)
    ensures var w' := Run(w, t);
            && Inv(w') && w'.cache == w.cache && w'.nextId == w.nextId
            && w'.builder.queue == [] && w'.builder.running == map[]
            && w'.builder.info == w.builder.info && w'.builder.abandoned == w.builder.abandoned
    decreases |w.builder.queue|, |w.builder.running|
  {
    if w.builder.running.Keys != {} {
      var m :| m in w.builder.running;
      assert (w.builder.running - {m}).Keys == w.builder.running.Keys - {m};
      t := DrainedNext(w, Event(m, Closed, true));
    } else if w.builder.queue != [] {
      t := DrainedNext(w, Start);
    } else {
      t := [];
    }
  }

  lemma {:induction false} DrainedNext(w: World, s: Step) returns (t: seq<Step>)
    requires Inv(w)
    requires var w' := Apply(w, s);
             && w'.cache == w.cache && w'.nextId == w.nextId
             && w'.builder.info == w.builder.info && w'.builder.abandoned == w.builder.abandoned
             && (|w'.builder.queue| < |w.builder.queue|
                 || (w'.builder.queue == w.builder.queue && |w'.builder.running| < |w.builder.running|))
    ensures var w' := Run(w, t);
            && Inv(w') && w'.cache == w.cache && w'.nextId == w.nextId
            && w'.builder.queue == [] && w'.builder.running == map[]
            && w'.builder.info == w.builder.info && w'.builder.abandoned == w.builder.abandoned
    decreases |w.builder.queue|, |w.builder.running|, 0
  {
    ApplyInv(w, s);
    var rest := Drained(Apply(w, s));
    RunFirst(w, s, rest);
    t := [s] + rest;
  }

  /** Then what was not given up is recorded as done. */
  lemma DrainedIsBuilt(w: World, o: Id)
    requires Inv(w) && w.builder.queue == [] && w.builder.running == map[] && o in w.cache.downstream
    ensures Built(w, o) <==> w.cache.downstream[o] !in w.builder.abandoned
  {
    var k := w.cache.downstream[o];
    assert HasBuild(w, o) && SomeStage(w.builder, k) && Settled(w.builder, k);
  }

  /** An operation is answered done in some continuation exactly if its build is not abandoned. */
  lemma CanBeDoneIff(s: seq<Step>, o: Id)
    requires o in After(s).cache.downstream
    ensures CanBeDone(After(s), o) <==> After(s).cache.downstream[o] !in After(s).builder.abandoned
  {
    var w := After(s);
    var k := w.cache.downstream[o];
    AlwaysInv(s);
    if k in w.builder.abandoned {
      forall t, answers
        ensures !PollReply(Run(w, t), o, answers).done
      {
        RunConcat(INIT, s, t);
        AbandonedNeverDone(s, t, o, answers);
      }
    } else {
      var t := Drained(w);
      DrainedIsBuilt(Run(w, t), o);
      assert Answered(Run(w, t), o);
      assert PollReply(Run(w, t), o, true).done;
    }
  }

  // ---------- Runs that show it ----------

  /** A worker that cannot list its pods leaves an operation that no continuation answers done. */
  lemma AbandonedRun(req: GetRequest)
    requires Buildable(req)
    ensures var w := After(OneRunning(req) + [Event(1, Changed, false)]);
            2 in w.cache.downstream && !CanBeDone(w, 2)
  {
    AfterOneRunning(req);
    AfterNext(OneRunning(req), Event(1, Changed, false));
    CanBeDoneIff(OneRunning(req) + [Event(1, Changed, false)], 2);
  }

  /** A request repeated while its build runs is answered done, with an empty value. */
  lemma HitWhileRunning(req: GetRequest)
    requires Buildable(req)
    ensures var w := After(OneRunning(req));
            && GetReply(w, req) == Replied(Operation(2, true, GetResponse(None)))
            && w.cache.downstream == map[2 := 1] && !Built(w, 2) && JobActive(w.cluster, 1)
  {
    AfterOneRunning(req);
  }
}
