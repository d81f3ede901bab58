/** The forecast model as an object: workers are shared objects whose cancellation flag is set
    in place. Every method is one step of the state machine. */
module GuardrailModel {
  import opened GuardrailRuns

  class Work {
    const generation: nat
    const key: Key
    var cancelled: bool

    constructor (generation: nat, key: Key)
      ensures this.generation == generation && this.key == key && !cancelled
    {
      this.generation, this.key, cancelled := generation, key, false;
    }

    function Job(): Job
      reads this
    {
      GuardrailRuns.Job(generation, key, cancelled)
    }
  }

  class Guardrail {
    var generation: nat
    var pendingWorkerCount: nat
    var work: seq<Work>
    var cache: map<Key, Forecasts>
    var cacheOrder: seq<Key>
    var forecasts: Forecasts
    ghost var published: seq<nat>

    static ghost function JobsOf(some: seq<Work>): (jobs: seq<Job>)
      reads some
      ensures |jobs| == |some| && forall i :: 0 <= i < |some| ==> jobs[i] == some[i].Job()
    {
      seq(|some|, i requires 0 <= i < |some| reads some => some[i].Job())
    }

    ghost function Jobs(): seq<Job>
      reads `work, work
    {
      JobsOf(work)
    }

    ghost function State(): Model
      reads this, work
    {
      Model(generation, Jobs(), pendingWorkerCount, cache, cacheOrder, forecasts, published)
    }

    ghost predicate Valid()
      reads this, work
    {
      Sound(State())
    }

    constructor ()
      ensures Valid() && State() == INITIAL
    {
      generation, pendingWorkerCount, work, cache, cacheOrder, forecasts, published := 0, 0, [], map[], [], [], [];
    }

    /** Requests that workers stop. */
    method CancelWorkers()
      modifies work
      ensures Jobs() == Cancelled(old(Jobs()))
    {
      for i := 0 to |work|
        invariant forall k :: 0 <= k < |work| ==> work[k].cancelled == (old(work[k].cancelled) || work[k] in work[..i])
      {
        work[i].cancelled := true;
      }
      assert forall k :: 0 <= k < |work| ==> Jobs()[k] == Cancelled(old(Jobs()))[k];
    }

    method Cancel()
      requires Valid()
      modifies this, work
      ensures Valid() && State() == Superseded(old(State()))
    {
      SupersededIsSound(State());
      generation := generation + 1;
      CancelWorkers();
    }

    method InvalidateCache()
      requires Valid()
      modifies this
      ensures Valid() && State() == Step(old(State()), Event.InvalidateCache)
    {
      cache := map[];
      cacheOrder := [];
    }

    /** Answers from the cache, or starts a worker. */
    method Start(query: Query) returns (started: seq<Work>)
      requires Valid()
      modifies this, work
      ensures Valid() && State() == Started(old(State()), query)
      ensures |started| <= 1 && fresh(started) && work == old(work) + started
    {
      StartedIsSound(State(), query);
      started := Begin(query);
    }

    method Begin(query: Query) returns (started: seq<Work>)
      modifies this, work
      ensures State() == Started(old(State()), query)
      ensures |started| <= 1 && fresh(started) && work == old(work) + started
    {
      generation := generation + 1;
      CancelWorkers();
      started := [];
      var key := CacheKey(query);
      if key in cache {
        forecasts := cache[key];
        published := published + [generation];
        return;
      }
      var job := Launch(key);
      started := [job];
    }

    /** Starts a worker for the current generation. */
    method Launch(key: Key) returns (job: Work)
      modifies `work, `pendingWorkerCount
      ensures fresh(job) && work == old(work) + [job] && pendingWorkerCount == old(pendingWorkerCount) + 1
      ensures Jobs() == old(Jobs()) + [Job(generation, key, false)]
    {
      job := new Work(generation, key);
      ghost var before := Jobs();
      work := work + [job];
      pendingWorkerCount := pendingWorkerCount + 1;
      assert Jobs() == before + [Job(generation, key, false)];
    }

    method Evict()
      modifies `cache, `cacheOrder
      ensures cache == EvictedCache(old(cache), old(cacheOrder)) && cacheOrder == EvictedOrder(old(cacheOrder))
    {
      while |cacheOrder| > CAPACITY
        invariant EvictedCache(cache, cacheOrder) == EvictedCache(old(cache), old(cacheOrder))
        invariant EvictedOrder(cacheOrder) == EvictedOrder(old(cacheOrder))
        decreases |cacheOrder|
      {
        cache, cacheOrder := cache - {cacheOrder[0]}, cacheOrder[1..];
      }
    }

    /** The other workers. */
    method Others(job: Work) returns (kept: seq<Work>)
      requires job in work && JobsAscend(State())
      ensures JobsOf(kept) == Without(Jobs(), job.Job())
      ensures forall other :: other in kept ==> other in work && other != job
    {
      kept := [];
      for i := 0 to |work|
        invariant forall other :: other in kept ==> other in work && other != job
        invariant JobsOf(kept) == Without(Jobs()[..i], job.Job())
      {
        assert Jobs()[..i + 1][..i] == Jobs()[..i];
        SameJobSameWork(work[i], job);
        if work[i] != job {
          assert JobsOf(kept + [work[i]]) == JobsOf(kept) + [Jobs()[i]];
          kept := kept + [work[i]];
        }
      }
      assert Jobs()[..|work|] == Jobs();
    }

    /** Workers are told apart as objects, jobs by their generation. */
    lemma SameJobSameWork(a: Work, b: Work)
      requires a in work && b in work && JobsAscend(State())
      ensures a.Job() == b.Job() ==> a == b
    {
      var i :| 0 <= i < |work| && work[i] == a;
      var k :| 0 <= k < |work| && work[k] == b;
      assert Jobs()[i] == a.Job() && Jobs()[k] == b.Job();
    }

    /** A worker reports back. */
    method Finish(job: Work, result: Forecasts)
      requires Valid() && job in work
      modifies this
      ensures Valid() && State() == Finished(old(State()), old(job.Job()), result)
      ensures job !in work
    {
      var i :| 0 <= i < |work| && work[i] == job;
      assert Jobs()[i] == job.Job();
      FinishedIsSound(State(), job.Job(), result);
      Report(job, result);
    }

    /** Shows and remembers the answer to the current request. */
    method Publish(key: Key, result: Forecasts)
      modifies `forecasts, `cache, `cacheOrder, `published
      ensures State() == Published(Stored(old(State()), key, result), result)
    {
      forecasts := result;
      cache := cache[key := result];
      cacheOrder := Without(cacheOrder, key) + [key];
      Evict();
      published := published + [generation];
    }

    method Report(job: Work, result: Forecasts)
      requires JobsAscend(State()) && job in work
      modifies this
      ensures State() == Finished(old(State()), old(job.Job()), result)
      ensures job !in work
    {
      var others := Others(job);
      hide Without, Stored, JobsAscend;
      if job.generation == generation && !job.cancelled {
        Publish(job.key, result);
      }
      work := others;
      pendingWorkerCount := if pendingWorkerCount > 0 then pendingWorkerCount - 1 else 0;
    }
  }
}
