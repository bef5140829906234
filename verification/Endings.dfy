/** What the record that a build is done says of its job, and what the answer's digest says. */
module Endings {
  import opened Wrappers
  import opened Strings
  import opened Actions
  import opened Protocol
  import opened Invariants
  import opened Hits
  import opened Answers
  import opened Samples

  // ---------- How builds come to be recorded as done ----------

  /** This event makes the worker of this build record it as done. */
  predicate Records(w: World, k: Id, event: WatchEvent, podsListed: bool) {
    Heard(w.builder, k, event) && (event.Closed? || (event.Deleted? && podsListed))
  }

  predicate RecordedAt(steps: seq<Step>, i: int, k: Id) {
    && 0 <= i < |steps| && steps[i].Event? && steps[i].buildId == k
    && Records(After(steps[..i]), k, steps[i].event, steps[i].podsListed)
  }

  lemma StepBuildDone(w: World, s: Step, k: Id)
    requires Inv(w)
    ensures BuildDone(Apply(w, s).builder, k) <==>
            BuildDone(w.builder, k) || (s.Event? && s.buildId == k && Records(w, k, s.event, s.podsListed))
  {
    assert Running(w.builder, k);
  }

  /** A build is recorded as done exactly if its worker heard of a job's deletion, or of its time being up. */
  lemma {:induction false} DoneIffRecorded(steps: seq<Step>, k: Id)
    ensures BuildDone(After(steps).builder, k) <==> exists i :: RecordedAt(steps, i, k)
    decreases |steps|
  {
    if steps != [] {
      var n := |steps| - 1;
      var before := steps[..n];
      DoneIffRecorded(before, k);
      AlwaysInv(before);
      StepBuildDone(After(before), steps[n], k);
      assert RecordedAt(steps, n, k) <==>
             steps[n].Event? && steps[n].buildId == k
             && Records(After(before), k, steps[n].event, steps[n].podsListed);
      forall i | 0 <= i < n
        ensures RecordedAt(before, i, k) <==> RecordedAt(steps, i, k)
      {
        assert before[..i] == steps[..i];
      }
      if i :| RecordedAt(before, i, k) {
        assert RecordedAt(steps, i, k);
      }
    }
  }

  /** The build's worker gives up: it cannot list its pods on an event other than the end of its watch. */
  predicate GivesUp(w: World, s: Step, k: Id) {
    s.Event? && s.buildId == k && Heard(w.builder, k, s.event) && !s.event.Closed? && !s.podsListed
  }

  predicate GaveUpAt(steps: seq<Step>, i: int, k: Id) {
    0 <= i < |steps| && GivesUp(After(steps[..i]), steps[i], k)
  }

  lemma StepAbandoned(w: World, s: Step, k: Id)
    ensures k in Apply(w, s).builder.abandoned <==> k in w.builder.abandoned || GivesUp(w, s, k)
  {
  }

  /** A build is abandoned exactly if its worker gave up at some step of the run. */
  lemma {:induction false} AbandonedIffGaveUp(steps: seq<Step>, k: Id)
    ensures k in After(steps).builder.abandoned <==> exists i :: GaveUpAt(steps, i, k)
    decreases |steps|
  {
    if steps != [] {
      var n := |steps| - 1;
      AbandonedIffGaveUp(steps[..n], k);
      StepAbandoned(After(steps[..n]), steps[n], k);
      GaveUpOneMore(steps, k);
    }
  }

  lemma GaveUpOneMore(steps: seq<Step>, k: Id)
    requires steps != []
    ensures var n := |steps| - 1;
            (exists i :: GaveUpAt(steps, i, k)) <==>
            (exists i :: GaveUpAt(steps[..n], i, k)) || GivesUp(After(steps[..n]), steps[n], k)
  {
    var n := |steps| - 1;
    forall i | 0 <= i < n
      ensures GaveUpAt(steps[..n], i, k) <==> GaveUpAt(steps, i, k)
    {
      assert steps[..n][..i] == steps[..i];
    }
    if i :| GaveUpAt(steps[..n], i, k) {
      assert GaveUpAt(steps, i, k);
    }
    if GivesUp(After(steps[..n]), steps[n], k) {
      assert GaveUpAt(steps, n, k);
    }
  }

  // ---------- What the ending says of the job ----------

  datatype Ending = OwnJobDeleted | OtherJobDeleted | TimeUp

  predicate EndsBy(k: Id, event: WatchEvent, ending: Ending) {
    match ending
    case OwnJobDeleted => event == Deleted(k)
    case OtherJobDeleted => event.Deleted? && event.job != k
    case TimeUp => event.Closed?
  }

  /** After some run, an event of this kind is about to make a build recorded as done. */
  predicate AboutToRecord(steps: seq<Step>, k: Id, event: WatchEvent, ending: Ending) {
    Records(After(steps), k, event, true) && EndsBy(k, event, ending)
  }

  /** Whenever such an event makes a build recorded as done, its job is over. */
  ghost predicate TellsJobOver(ending: Ending) {
    forall steps, k, event :: AboutToRecord(steps, k, event, ending) ==> JobOver(After(steps).cluster, k)
  }

  /** Whenever such an event makes a build recorded as done, its job has pushed its image. */
  ghost predicate TellsJobSucceeded(ending: Ending) {
    forall steps, k, event :: AboutToRecord(steps, k, event, ending) ==> JobSucceeded(After(steps).cluster, k)
  }

  /**
   The record says that the job is over exactly if the job deleted was the build's own; the
   source looks at the kind of the event only, so any job's deletion will do for it.
   */
  lemma TellsJobOverIff(ending: Ending)
    ensures TellsJobOver(ending) <==> ending == OwnJobDeleted
  {
    if ending == OwnJobDeleted {
      forall steps, k, event | AboutToRecord(steps, k, event, ending)
        ensures JobOver(After(steps).cluster, k)
      {
        AlwaysInv(steps);
        assert HeardOf(After(steps), k, k) && JobStands(After(steps).cluster, k);
      }
    } else {
      var req := SomeBuildable();
      if ending == TimeUp {
        var steps := TimeUpWhileRunning(req);
        assert AboutToRecord(steps, 1, Closed, ending);
      } else {
        var steps := OtherDeletedWhileRunning(req);
        assert AboutToRecord(steps, 4, Deleted(1), ending);
      }
    }
  }

  /** No ending says that the job succeeded: a failed job is deleted like any other. */
  lemma NoneTellsJobSucceeded(ending: Ending)
    ensures !TellsJobSucceeded(ending)
  {
    var req := SomeBuildable();
    match ending {
      case OwnJobDeleted =>
        var steps := OwnDeletedAfterFailure(req);
        assert AboutToRecord(steps, 1, Deleted(1), ending);
      case OtherJobDeleted =>
        var steps := OtherDeletedWhileRunning(req);
        assert AboutToRecord(steps, 4, Deleted(1), ending);
      case TimeUp =>
        var steps := TimeUpWhileRunning(req);
        assert AboutToRecord(steps, 1, Closed, ending);
    }
  }

  /** The watch of a job that takes too long: its build is about to be recorded as done. */
  lemma TimeUpWhileRunning(req: GetRequest) returns (steps: seq<Step>)
    requires Buildable(req)
    ensures Records(After(steps), 1, Closed, true) && JobActive(After(steps).cluster, 1)
  {
    steps := OneRunning(req);
    AfterOneRunning(req);
  }

  /** Two builds run, the job of one is deleted: the other build is about to be recorded as done. */
  lemma OtherDeletedWhileRunning(req: GetRequest) returns (steps: seq<Step>)
    requires Buildable(req)
    ensures Records(After(steps), 4, Deleted(1), true) && JobActive(After(steps).cluster, 4)
  {
    var two := TwoRunning(req);
    AfterTwoRunning(req);
    AfterNext(two, JobEnds(1, "d"));
    AfterNext(two + [JobEnds(1, "d")], JobDeleted(1));
    steps := two + [JobEnds(1, "d")] + [JobDeleted(1)];
    assert 4 in After(two + [JobEnds(1, "d")]).builder.running;
  }

  /** A job fails and is deleted: its build is about to be recorded as done. */
  lemma OwnDeletedAfterFailure(req: GetRequest) returns (steps: seq<Step>)
    requires Buildable(req)
    ensures Records(After(steps), 1, Deleted(1), true)
    ensures JobOver(After(steps).cluster, 1) && !JobSucceeded(After(steps).cluster, 1)
  {
    var one := OneRunning(req);
    AfterOneRunning(req);
    AfterNext(one, JobEnds(1, ""));
    AfterNext(one + [JobEnds(1, "")], JobDeleted(1));
    steps := one + [JobEnds(1, "")] + [JobDeleted(1)];
    assert 1 in After(one + [JobEnds(1, "")]).builder.running;
  }

  // ---------- What a job builds ----------

  /**
   The build command of a job reads its targets as words of one text: they are those on the
   build's record exactly if each of these is a word, neither empty nor with white space in it.
   */
  lemma JobBuildsTargetsIff(steps: seq<Step>, k: Id)
    requires k in After(steps).cluster.jobs
    ensures k in After(steps).builder.info
    ensures var targets := After(steps).builder.info[k].targets;
            Words(After(steps).cluster.jobs[k].targets) == targets <==>
            forall i :: 0 <= i < |targets| ==> IsWord(targets[i])
  {
    AlwaysInv(steps);
    assert JobMatches(After(steps), k);
    JoinReadAsWordsIff(After(steps).builder.info[k].targets);
  }

  // ---------- What the digest says of the job ----------

  lemma {:induction false} SucceededStays(s: seq<Step>, t: seq<Step>, k: Id)
    requires JobSucceeded(After(s).cluster, k)
    ensures JobSucceeded(After(s + t).cluster, k)
    decreases |t|
  {
    if t == [] {
      assert s + t == s;
    } else {
      var n := |t| - 1;
      SucceededStays(s, t[..n], k);
      AfterNext(s + t[..n], t[n]);
      assert s + t == s + t[..n] + [t[n]];
      AlwaysInv(s + t[..n]);
      StartedIsNew(After(s + t[..n]), k);
    }
  }

  /** A task in the queue has no job yet. */
  lemma StartedIsNew(w: World, k: Id)
    requires Inv(w) && k in w.cluster.status
    ensures !QueuedAt(w.builder, 0, k)
  {
    assert JobStands(w.cluster, k) && JobMatches(w, k) && Waiting(w.builder, 0);
  }

  /** The poll that first learned of the operation's build being recorded as done. */
  predicate FirstDonePoll(steps: seq<Step>, o: Id, i: int) {
    PolledWhenBuilt(steps, o, i) && !StoredDone(After(steps[..i]).cache, o)
  }

  lemma {:induction false} StoredAtFirstPoll(steps: seq<Step>, o: Id) returns (i: int)
    requires StoredDone(After(steps).cache, o)
    ensures FirstDonePoll(steps, o, i)
    ensures var w := After(steps[..i]);
            o in w.cache.downstream
            && After(steps).cache.upstream[o] ==
               BuilderPoll(w.builder, w.cluster, w.cache.downstream[o], steps[i].answers)
    decreases |steps|
  {
    if steps == [] {
      assert false;
    } else {
      var n := |steps| - 1;
      var before := steps[..n];
      AlwaysInv(before);
      StepStoredDone(After(before), steps[n], o);
      if StoredDone(After(before).cache, o) {
        i := StoredAtFirstPoll(before, o);
        assert before[..i] == steps[..i];
        assert steps == before + [steps[n]];
        DoneStored(before, [steps[n]], o);
      } else {
        i := n;
      }
    }
  }

  /**
   The image a hit comes with is that of the build behind it, whose job was made from the
   build's record. Its digest is not empty exactly if the registry answered, and the job had
   succeeded, when the operation was first polled as done; so a digest vouches for the job.
   */
  lemma HitImageIff(steps: seq<Step>, req: GetRequest, o: Id, image: Image) returns (i: int)
    requires Hit(After(steps).cache, req) == Some(o)
    requires GetReply(After(steps), req) == Replied(Operation(o, true, GetResponse(Some(image))))
    ensures FirstDonePoll(steps, o, i)
    ensures var w := After(steps);
            && o in w.cache.downstream && w.cache.downstream[o] in w.builder.info
            && var k := w.cache.downstream[o];
               var info := w.builder.info[k];
               && image.name == info.imageName && image.tag == info.imageTag && info.imageTag.Some?
               && k in w.cluster.jobs
               && w.cluster.jobs[k] == JobSpec(k, info.branch, info.commitSha, Join(info.targets, ' '),
                                               info.imageTag.value)
               && (image.digest != "" <==> steps[i].answers && JobSucceeded(After(steps[..i]).cluster, k))
               && (image.digest != "" ==> JobSucceeded(w.cluster, k))
  {
    var w := After(steps);
    AlwaysInv(steps);
    assert Answered(w, o);
    var k := w.cache.downstream[o];
    assert JobMatches(w, k) && HasBuild(w, o);
    i := StoredAtFirstPoll(steps, o);
    var polled := After(steps[..i]);
    AlwaysInv(steps[..i]);
    assert steps[..i] + steps[i..] == steps;
    DownstreamStays(steps[..i], steps[i..], o);
    assert HasBuild(polled, o);
    DigestIffPushed(polled, k, steps[i].answers);
    if JobSucceeded(polled.cluster, k) {
      SucceededStays(steps[..i], steps[i..], k);
    }
  }

  /** A build whose watch ends before its job: it is recorded as done, and its image has no digest. */
  function OneOver(req: GetRequest): seq<Step> {
    OneRunning(req) + [Event(1, Closed, true)]
  }

  lemma AfterOneOver(req: GetRequest)
    requires Buildable(req)
    ensures var w := After(OneOver(req));
            && Built(w, 2) && Hit(w.cache, req) == Some(2)
            && PollReply(w, 2, true) == Operation(2, true, GetResponse(Some(Image("eval", Some(0), ""))))
  {
    AfterOneRunning(req);
    AfterNext(OneRunning(req), Event(1, Closed, true));
    RecordOfFirst(req);
  }

  lemma RecordOfFirst(req: GetRequest)
    requires Buildable(req)
    ensures var w := After(OneRunning(req));
            && 1 in w.builder.info
            && w.builder.info[1] == BuildInfo(BuildTarget(req).value.branch, BuildTarget(req).value.commitSha,
                                              BuildConfig(BuildAction(req).value).bazelTargets, "eval", Some(0))
  {
    AfterRequest(req);
    AfterNext([Get(req)], Start);
  }

  /**
   Then a poll: whatever follows, even the job's success, every hit comes with an image without
   digest.
   */
  lemma EmptyDigestForEver(req: GetRequest, t: seq<Step>)
    requires Buildable(req)
    ensures var steps := OneOver(req) + [Poll(2, true)] + t;
            GetReply(After(steps), req) == Replied(Operation(2, true, GetResponse(Some(Image("eval", Some(0), "")))))
  {
    AfterOneOver(req);
    HitStable(OneOver(req), [Poll(2, true)] + t, req);
    assert OneOver(req) + ([Poll(2, true)] + t) == OneOver(req) + [Poll(2, true)] + t;
    DoneImageForEver(OneOver(req), t, 2, true, true, req);
  }

  /** The digest of an answer is the registry's at the time: that of a push since the job's own, if there was one. */
  lemma LaterPushShows(req: GetRequest, pushed: string, again: string)
    requires Buildable(req) && pushed != "" && again != ""
    ensures var built := OneRunning(req) + [JobEnds(1, pushed)] + [Event(1, Closed, true)];
            && PollReply(After(built), 2, true) == Operation(2, true, GetResponse(Some(Image("eval", Some(0), pushed))))
            && PollReply(After(built + [Pushed(0, again)]), 2, true)
               == Operation(2, true, GetResponse(Some(Image("eval", Some(0), again))))
  {
    var over := OneRunning(req) + [JobEnds(1, pushed)];
    AfterOneRunning(req);
    RecordOfFirst(req);
    AfterNext(OneRunning(req), JobEnds(1, pushed));
    AfterNext(over, Event(1, Closed, true));
    AfterNext(over + [Event(1, Closed, true)], Pushed(0, again));
  }
}
