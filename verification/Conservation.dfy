/** Every request that starts a build is accounted for, everywhere, after every run. */
module Conservation {
  import opened Actions
  import opened Protocol
  import opened Invariants

  /** The requests of a run that started a build. */
  ghost function MissCount(steps: seq<Step>): nat {
    if steps == [] then 0
    else
      var n := |steps| - 1;
      MissCount(steps[..n]) +
      if steps[n].Get? && Misses(After(steps[..n]).cache, steps[n].req) then 1 else 0
  }

  ghost function EntryCount(data: map<Digest, seq<CacheValue>>): nat {
    if data == map[] then 0
    else
      var d :| d in data;
      |data[d]| + EntryCount(data - {d})
  }

  lemma {:induction false} EntryCountRemove(data: map<Digest, seq<CacheValue>>, d: Digest)
    requires d in data
    ensures EntryCount(data) == |data[d]| + EntryCount(data - {d})
    decreases data.Keys
  {
    var e :| e in data && EntryCount(data) == |data[e]| + EntryCount(data - {e});
    if e != d {
      assert (data - {e}).Keys == data.Keys - {e} && (data - {d}).Keys == data.Keys - {d};
      EntryCountRemove(data - {e}, d);
      EntryCountRemove(data - {d}, e);
      assert data - {e} - {d} == data - {d} - {e};
    }
  }

  lemma PutAddsEntry(c: CacheState, d: Digest, operation: Id, buildId: Id, action: Action)
    ensures EntryCount(Put(c, d, operation, buildId, action).data) == EntryCount(c.data) + 1
  {
    var data := Put(c, d, operation, buildId, action).data;
    EntryCountRemove(data, d);
    if d in c.data {
      EntryCountRemove(c.data, d);
      assert data - {d} == c.data - {d};
    } else {
      assert data - {d} == c.data;
    }
  }

  ghost function StageCount(b: BuilderState): nat {
    |b.queue| + |b.running| + |b.done| + |b.abandoned|
  }

  /** What workers do moves a build from one stage to another. */
  lemma StartConserves(b: BuilderState)
    requires Staged(b)
    ensures StageCount(StartTask(b)) == StageCount(b)
  {
    if CanStart(b) {
      assert Waiting(b, 0);
      assert b.queue[0].buildId !in b.running;
    }
  }

  lemma EventConserves(b: BuilderState, k: Id, event: WatchEvent, podsListed: bool)
    requires Staged(b)
    ensures StageCount(OnEvent(b, k, event, podsListed)) == StageCount(b)
  {
    if k in b.running {
      assert Running(b, k);
      assert (b.running - {k}).Keys == b.running.Keys - {k};
    }
  }

  ghost predicate Balanced(w: World, n: nat) {
    && |w.cache.downstream| == n
    && |w.builder.info| == n
    && EntryCount(w.cache.data) == n
    && StageCount(w.builder) == n
  }

  lemma MissAddsOne(w: World, req: GetRequest, n: nat)
    requires Inv(w) && Misses(w.cache, req) && Balanced(w, n)
    ensures Balanced(Miss(w, req), n + 1)
  {
    assert HasBuild(w, w.nextId + 2) && HasOperation(w, w.nextId + 1);
    assert w.nextId + 2 !in w.cache.downstream && w.nextId + 1 !in w.builder.info;
    PutAddsEntry(w.cache, PutAt(w.cache, req).0, w.nextId + 2, w.nextId + 1, BuildAction(req).value);
  }

  /**
   After every run, the requests that started a build are as many as the operations handed out
   for them, the cache's entries over all buckets, the builds on record, and the tasks queued,
   running, recorded as done and abandoned.
   */
  lemma {:induction false} Conserved(steps: seq<Step>)
    ensures var w, n := After(steps), MissCount(steps);
            && |w.cache.downstream| == n
            && |w.builder.info| == n
            && EntryCount(w.cache.data) == n
            && |w.builder.queue| + |w.builder.running| + |w.builder.done| + |w.builder.abandoned| == n
    decreases |steps|
  {
    if steps != [] {
      var m := |steps| - 1;
      Conserved(steps[..m]);
      AlwaysInv(steps[..m]);
      StepBalanced(After(steps[..m]), steps[m], MissCount(steps[..m]));
    }
  }

  lemma StepBalanced(w: World, s: Step, n: nat)
    requires Inv(w) && Balanced(w, n)
    ensures Balanced(Apply(w, s), if s.Get? && Misses(w.cache, s.req) then n + 1 else n)
  {
    match s {
      case Get(req) =>
        if Misses(w.cache, req) {
          MissAddsOne(w, req, n);
        }
      case Start =>
        StartConserves(w.builder);
      case Event(k, event, podsListed) =>
        EventConserves(w.builder, k, event, podsListed);
      case JobDeleted(k) =>
        assert Announce(w.builder, k).running.Keys == w.builder.running.Keys;
      case _ =>
    }
  }
}
