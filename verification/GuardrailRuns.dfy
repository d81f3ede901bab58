/** Forecast workers superseded by newer requests, and the cache of their answers, as a state
    machine over whole runs. */
module GuardrailRuns {
  import opened Options

  const CAPACITY := 16

  /** A query; `generatedAt` in seconds. */
  datatype Query = Query(fields: map<string, string>, generatedAt: Option<int>)

  datatype Key = Key(fields: map<string, string>, minute: Option<int>)

  type Forecasts = seq<string>

  function CacheKey(q: Query): Key {
    Key(q.fields, match q.generatedAt
                  case None => None
                  case Some(t) => Some(if t >= 0 then t / 60 else -(-t / 60)))
  }

  /** Minutes are cut off towards the epoch. */
  ghost predicate InMinute(t: int, minute: int) {
    if t >= 0 then 60 * minute <= t < 60 * minute + 60 else 60 * minute - 60 < t <= 60 * minute
  }

  ghost predicate SameTime(a: Option<int>, b: Option<int>) {
    if a.None? || b.None? then a == b else exists minute :: InMinute(a.value, minute) && InMinute(b.value, minute)
  }

  /** One answer serves exactly the queries with the same fields and no time, or of the same minute. */
  lemma KeysAgreeIff(a: Query, b: Query)
    ensures CacheKey(a) == CacheKey(b) <==> a.fields == b.fields && SameTime(a.generatedAt, b.generatedAt)
  {
    if a.generatedAt.Some? && b.generatedAt.Some? {
      var minute := CacheKey(a).minute.value;
      MinuteIsUnique(a.generatedAt.value, minute);
      MinuteIsUnique(b.generatedAt.value, CacheKey(b).minute.value);
      assert InMinute(a.generatedAt.value, minute);
    }
  }

  lemma MinuteIsUnique(t: int, minute: int)
    requires minute == if t >= 0 then t / 60 else -(-t / 60)
    ensures forall m :: InMinute(t, m) <==> m == minute
  {}

  /** Times of one minute are less than a minute apart, except around the epoch. */
  lemma MinutesAreShort(x: int, y: int)
    requires SameTime(Some(x), Some(y))
    ensures -60 < x - y < 60 || (-60 < x < 60 && -60 < y < 60)
  {}

  // ---------- The state machine ----------

  /** A worker that has not reported back; `generation` is that of its request. */
  datatype Job = Job(generation: nat, key: Key, cancelled: bool)

  /** `published` is the log of announced generations, `shown` the forecasts on display. */
  datatype Model = Model(generation: nat, jobs: seq<Job>, pending: nat, cache: map<Key, Forecasts>,
                         order: seq<Key>, shown: Forecasts, published: seq<nat>)

  datatype Event = Start(query: Query) | Cancel | InvalidateCache | Finish(generation: nat, result: Forecasts)

  function Cancelled(jobs: seq<Job>): (c: seq<Job>)
    ensures |c| == |jobs| && forall i :: 0 <= i < |jobs| ==> c[i] == jobs[i].(cancelled := true)
  {
    seq(|jobs|, i requires 0 <= i < |jobs| => jobs[i].(cancelled := true))
  }

  function Without<T(==,!new)>(s: seq<T>, x: T): (w: seq<T>)
    ensures forall y :: y in w <==> y in s && y != x
    ensures |w| <= |s|
  {
    if s == [] then []
    else if s[|s| - 1] == x then Without(s[..|s| - 1], x)
    else Without(s[..|s| - 1], x) + [s[|s| - 1]]
  }

  function EvictedOrder(order: seq<Key>): seq<Key> {
    if |order| > CAPACITY then EvictedOrder(order[1..]) else order
  }

  function EvictedCache(cache: map<Key, Forecasts>, order: seq<Key>): map<Key, Forecasts> {
    if |order| > CAPACITY then EvictedCache(cache - {order[0]}, order[1..]) else cache
  }

  function Stored(m: Model, key: Key, value: Forecasts): Model {
    var order := Without(m.order, key) + [key];
    m.(cache := EvictedCache(m.cache[key := value], order), order := EvictedOrder(order))
  }

  function Published(m: Model, shown: Forecasts): Model {
    m.(shown := shown, published := m.published + [m.generation])
  }

  function Superseded(m: Model): Model {
    m.(generation := m.generation + 1, jobs := Cancelled(m.jobs))
  }

  function Started(m: Model, q: Query): Model {
    var key, next := CacheKey(q), Superseded(m);
    if key in m.cache then Published(next, m.cache[key])
    else next.(jobs := next.jobs + [Job(next.generation, key, false)], pending := next.pending + 1)
  }

  predicate IsCurrent(m: Model, job: Job) {
    job.generation == m.generation && !job.cancelled
  }

  function Finished(m: Model, job: Job, result: Forecasts): Model {
    var next := if IsCurrent(m, job) then Published(Stored(m, job.key, result), result) else m;
    next.(jobs := Without(m.jobs, job), pending := if m.pending > 0 then m.pending - 1 else 0)
  }

  /** Some outstanding worker of generation `g`. */
  ghost predicate IsOutstanding(m: Model, g: nat, job: Job) {
    job in m.jobs && job.generation == g
  }

  /** A worker reports back only while it is outstanding. */
  ghost predicate CanHappen(m: Model, e: Event) {
    e.Finish? ==> exists job :: IsOutstanding(m, e.generation, job)
  }

  ghost function Step(m: Model, e: Event): Model
    requires CanHappen(m, e)
  {
    match e
    case Start(q) => Started(m, q)
    case Cancel => Superseded(m)
    case InvalidateCache => m.(cache := map[], order := [])
    case Finish(g, result) =>
      var job :| IsOutstanding(m, g, job);
      Finished(m, job, result)
  }

  const INITIAL := Model(0, [], 0, map[], [], [], [])

  ghost predicate IsRun(run: seq<Event>)
    decreases |run|, 0
  {
    run == [] || (IsRun(run[..|run| - 1]) && CanHappen(After(run[..|run| - 1]), run[|run| - 1]))
  }

  ghost function After(run: seq<Event>): Model
    requires IsRun(run)
    decreases |run|, 1
  {
    if run == [] then INITIAL else Step(After(run[..|run| - 1]), run[|run| - 1])
  }

  // ---------- The invariant ----------

  ghost predicate Ascending(s: seq<nat>, top: nat) {
    && (forall i, j :: 0 <= i < j < |s| ==> s[i] < s[j])
    && (forall i :: 0 <= i < |s| ==> s[i] <= top)
  }

  ghost predicate JobsAscend(m: Model) {
    && (forall i, j :: 0 <= i < j < |m.jobs| ==> m.jobs[i].generation < m.jobs[j].generation)
    && (forall i :: 0 <= i < |m.jobs| ==> m.jobs[i].generation <= m.generation)
  }

  ghost predicate Distinct<T>(s: seq<T>) {
    forall i, j :: 0 <= i < j < |s| ==> s[i] != s[j]
  }

  ghost predicate CacheListed(cache: map<Key, Forecasts>, order: seq<Key>) {
    && Distinct(order)
    && (forall k :: k in order <==> k in cache)
  }

  /** A worker is cancelled exactly when its request is not the latest. */
  ghost predicate CancellationAgrees(m: Model) {
    forall job :: job in m.jobs ==> (job.cancelled <==> job.generation != m.generation)
  }

  /** The latest request is not announced while its worker runs. */
  ghost predicate RunningIsUnpublished(m: Model) {
    forall job :: job in m.jobs && job.generation == m.generation ==> m.generation !in m.published
  }

  ghost predicate Sound(m: Model) {
    && m.pending == |m.jobs|
    && JobsAscend(m)
    && CancellationAgrees(m)
    && Ascending(m.published, m.generation)
    && RunningIsUnpublished(m)
    && CacheListed(m.cache, m.order)
    && |m.order| <= CAPACITY
  }

  lemma AtMostOneUncancelled(m: Model, i: int, j: int)
    requires Sound(m) && 0 <= i < |m.jobs| && 0 <= j < |m.jobs|
    requires !m.jobs[i].cancelled && !m.jobs[j].cancelled
    ensures i == j
  {
    assert m.jobs[i] in m.jobs && m.jobs[j] in m.jobs;
  }

  // ---------- Lists ----------

  lemma DistinctNext<T(!new)>(s: seq<T>, x: T)
    requires Distinct(s) && x !in s
    ensures Distinct(s + [x])
  {}

  lemma {:induction false} WithoutAbsent<T(!new)>(s: seq<T>, x: T)
    requires x !in s
    ensures Without(s, x) == s
  {
    if s != [] {
      WithoutAbsent(s[..|s| - 1], x);
      assert s == s[..|s| - 1] + [s[|s| - 1]];
    }
  }

  lemma {:induction false} WithoutKeepsDistinct<T(!new)>(s: seq<T>, x: T)
    requires Distinct(s)
    ensures Distinct(Without(s, x))
    ensures x in s ==> |Without(s, x)| == |s| - 1
  {
    if s != [] {
      var init, last := s[..|s| - 1], s[|s| - 1];
      assert last !in init;
      WithoutKeepsDistinct(init, x);
      if last == x {
        WithoutAbsent(init, x);
      } else {
        DistinctNext(Without(init, x), last);
        assert x in s ==> x in init;
      }
    }
  }

  lemma {:induction false} WithoutKeepsOrder(jobs: seq<Job>, x: Job)
    requires forall i, j :: 0 <= i < j < |jobs| ==> jobs[i].generation < jobs[j].generation
    ensures forall i, j :: 0 <= i < j < |Without(jobs, x)| ==> Without(jobs, x)[i].generation < Without(jobs, x)[j].generation
  {
    if jobs != [] {
      var init := jobs[..|jobs| - 1];
      WithoutKeepsOrder(init, x);
      forall y | y in init
        ensures y.generation < jobs[|jobs| - 1].generation
      {
        var i :| 0 <= i < |init| && init[i] == y;
        assert jobs[i] == y;
      }
    }
  }

  /** Eviction drops the oldest entries down to the capacity and keeps the order exact. */
  lemma {:induction false} EvictionKeepsListed(cache: map<Key, Forecasts>, order: seq<Key>)
    requires CacheListed(cache, order)
    ensures CacheListed(EvictedCache(cache, order), EvictedOrder(order))
    ensures EvictedOrder(order) == if |order| <= 16 then order else order[|order| - 16..]
    ensures forall k :: k in EvictedCache(cache, order) ==> k in cache && EvictedCache(cache, order)[k] == cache[k]
    decreases |order|
  {
    if |order| > CAPACITY {
      var rest, left := order[1..], cache - {order[0]};
      assert order == [order[0]] + rest;
      EvictionKeepsListed(left, rest);
    }
  }

  lemma StoredKeepsListed(m: Model, key: Key, value: Forecasts)
    requires CacheListed(m.cache, m.order)
    ensures
      var s := Stored(m, key, value);
      && CacheListed(s.cache, s.order)
      && |s.order| <= CAPACITY
      && forall k :: k in s.cache ==> if k == key then s.cache[k] == value else k in m.cache && s.cache[k] == m.cache[k]
  {
    WithoutKeepsDistinct(m.order, key);
    DistinctNext(Without(m.order, key), key);
    EvictionKeepsListed(m.cache[key := value], Without(m.order, key) + [key]);
  }

  lemma {:induction false} StoredKeepsNewest(cache: map<Key, Forecasts>, order: seq<Key>)
    requires CacheListed(cache, order) && order != []
    ensures order[|order| - 1] in EvictedCache(cache, order)
    decreases |order|
  {
    if |order| > CAPACITY {
      var rest := order[1..];
      assert order == [order[0]] + rest;
      StoredKeepsNewest(cache - {order[0]}, rest);
    } else {
      assert order[|order| - 1] in order;
    }
  }

  // ---------- Every step keeps the invariant ----------

  lemma SupersededIsSound(m: Model)
    requires Sound(m)
    ensures Sound(Superseded(m))
    ensures Superseded(m).generation !in m.published
    ensures forall job :: job in Superseded(m).jobs ==> job.generation < Superseded(m).generation
  {
    var s := Superseded(m);
    forall job | job in s.jobs
      ensures job.cancelled && job.generation < s.generation
    {
      var i :| 0 <= i < |s.jobs| && s.jobs[i] == job;
      assert s.jobs[i] == m.jobs[i].(cancelled := true);
    }
  }

  lemma StartedIsSound(m: Model, q: Query)
    requires Sound(m)
    ensures Sound(Started(m, q))
  {
    hide CacheKey, CacheListed;
    SupersededIsSound(m);
    var s := Superseded(m);
    assert CacheKey(q) !in m.cache ==> forall job :: job in Started(m, q).jobs ==>
      job in s.jobs || job == Job(s.generation, CacheKey(q), false);
  }

  lemma FinishedIsSound(m: Model, job: Job, result: Forecasts)
    requires Sound(m) && job in m.jobs
    ensures Sound(Finished(m, job, result))
  {
    JobsDistinct(m);
    WithoutKeepsDistinct(m.jobs, job);
    WithoutKeepsOrder(m.jobs, job);
    StoredKeepsListed(m, job.key, result);
    SameGenerationSameJob(m, job);
    LeftJobsBelow(m, job);
  }

  lemma JobsDistinct(m: Model)
    requires JobsAscend(m)
    ensures Distinct(m.jobs)
  {}

  lemma LeftJobsBelow(m: Model, job: Job)
    requires JobsAscend(m)
    ensures forall i :: 0 <= i < |Without(m.jobs, job)| ==> Without(m.jobs, job)[i].generation <= m.generation
  {
    forall i | 0 <= i < |Without(m.jobs, job)|
      ensures Without(m.jobs, job)[i].generation <= m.generation
    {
      assert Without(m.jobs, job)[i] in Without(m.jobs, job);
    }
  }

  lemma SameGenerationSameJob(m: Model, job: Job)
    requires JobsAscend(m) && job in m.jobs
    ensures forall other :: other in m.jobs && other.generation == job.generation ==> other == job
  {}

  lemma StepIsSound(m: Model, e: Event)
    requires Sound(m) && CanHappen(m, e)
    ensures Sound(Step(m, e))
  {
    match e
    case Start(q) => StartedIsSound(m, q);
    case Cancel => SupersededIsSound(m);
    case InvalidateCache =>
    case Finish(g, result) =>
      var job :| IsOutstanding(m, g, job);
      SameGenerationSameJob(m, job);
      FinishedIsSound(m, job, result);
  }

  /** The invariant holds after every run. */
  lemma {:induction false} RunIsSound(run: seq<Event>)
    requires IsRun(run)
    ensures Sound(After(run))
  {
    if run != [] {
      RunIsSound(run[..|run| - 1]);
      StepIsSound(After(run[..|run| - 1]), run[|run| - 1]);
    }
  }

  /** A finished worker is announced exactly when its request is still the latest one, and
      then its answer is shown and cached; otherwise nothing but the worker list changes. */
  lemma FinishPublishesIffLatest(m: Model, g: nat, result: Forecasts, job: Job)
    requires Sound(m) && IsOutstanding(m, g, job)
    ensures
      var next := Step(m, Finish(g, result));
      && next.jobs == Without(m.jobs, job) && next.pending == m.pending - 1 && next.generation == m.generation
      && (g == m.generation ==>
            && next.published == m.published + [g]
            && next.shown == result
            && job.key in next.cache && next.cache[job.key] == result)
      && (g != m.generation ==>
            next.published == m.published && next.shown == m.shown && next.cache == m.cache && next.order == m.order)
  {
    SameGenerationSameJob(m, job);
    StoredKeepsListed(m, job.key, result);
    WithoutKeepsDistinct(m.order, job.key);
    StoredKeepsNewest(m.cache[job.key := result], Without(m.order, job.key) + [job.key]);
  }

  /** A request supersedes every worker; a cached answer is announced at once, otherwise one
      worker runs for it and nothing is announced. */
  lemma StartOutcome(m: Model, q: Query)
    requires Sound(m)
    ensures
      var next := Started(m, q);
      && next.generation == m.generation + 1 && next.cache == m.cache && next.order == m.order
      && (forall job :: job in next.jobs && job.generation <= m.generation ==> job.cancelled)
      && (if CacheKey(q) in m.cache
          then |next.jobs| == |m.jobs| && next.shown == m.cache[CacheKey(q)] && next.published == m.published + [next.generation]
          else |next.jobs| == |m.jobs| + 1 && Job(next.generation, CacheKey(q), false) in next.jobs
               && next.shown == m.shown && next.published == m.published)
  {
    StartedIsSound(m, q);
  }

  // ---------- Where answers come from ----------

  /** The number of requests and cancellations so far: the generation. */
  function Requests(run: seq<Event>): nat {
    if run == [] then 0
    else Requests(run[..|run| - 1]) + if run[|run| - 1].Start? || run[|run| - 1].Cancel? then 1 else 0
  }

  /** Request `i` of the run asked for `key` and got generation `g`. */
  ghost predicate Asked(run: seq<Event>, i: int, key: Key, g: nat) {
    0 <= i < |run| && run[i].Start? && CacheKey(run[i].query) == key && Requests(run[..i + 1]) == g
  }

  /** `value` is what a worker reported for a query with this key. */
  ghost predicate Reported(run: seq<Event>, key: Key, value: Forecasts) {
    exists i, j, g :: Asked(run, i, key, g) && i < j < |run| && run[j] == Finish(g, value)
  }

  /** It was reported after the cache was last cleared. */
  ghost predicate ReportedSince(run: seq<Event>, key: Key, value: Forecasts) {
    exists i, j, g :: Asked(run, i, key, g) && i < j < |run| && run[j] == Finish(g, value) && NotClearedAfter(run, j)
  }

  ghost predicate NotClearedAfter(run: seq<Event>, j: int) {
    forall k :: 0 <= j < k < |run| ==> !run[k].InvalidateCache?
  }

  ghost predicate JobsWereAsked(run: seq<Event>, m: Model) {
    forall job :: job in m.jobs ==> exists i :: Asked(run, i, job.key, job.generation)
  }

  ghost predicate CacheWasReported(run: seq<Event>, m: Model) {
    forall key :: key in m.cache ==> ReportedSince(run, key, m.cache[key])
  }

  /** What is shown answers the request with the generation announced last. */
  ghost predicate ShownIsAnswer(run: seq<Event>, m: Model) {
    m.published != [] ==> IsAnswer(run, m.published[|m.published| - 1], m.shown)
  }

  ghost predicate IsAnswer(run: seq<Event>, g: nat, value: Forecasts) {
    exists key :: Answers(run, g, key, value)
  }

  ghost predicate Answers(run: seq<Event>, g: nat, key: Key, value: Forecasts) {
    (exists i :: Asked(run, i, key, g)) && Reported(run, key, value)
  }

  ghost predicate Explained(run: seq<Event>, m: Model) {
    m.generation == Requests(run) && JobsWereAsked(run, m) && CacheWasReported(run, m) && ShownIsAnswer(run, m)
  }

  lemma AskedGrows(run: seq<Event>, e: Event, i: int, key: Key, g: nat)
    requires Asked(run, i, key, g)
    ensures Asked(run + [e], i, key, g)
  {
    assert (run + [e])[..i + 1] == run[..i + 1];
  }

  lemma ReportedGrows(run: seq<Event>, e: Event, key: Key, value: Forecasts)
    requires Reported(run, key, value)
    ensures Reported(run + [e], key, value)
  {
    var i, j, g :| Asked(run, i, key, g) && i < j < |run| && run[j] == Finish(g, value);
    AskedGrows(run, e, i, key, g);
    assert (run + [e])[j] == Finish(g, value);
  }

  lemma ReportedSinceGrows(run: seq<Event>, e: Event, key: Key, value: Forecasts)
    requires ReportedSince(run, key, value) && !e.InvalidateCache?
    ensures ReportedSince(run + [e], key, value)
  {
    hide CacheKey, Requests;
    var i, j, g :| Asked(run, i, key, g) && i < j < |run| && run[j] == Finish(g, value) && NotClearedAfter(run, j);
    AskedGrows(run, e, i, key, g);
    assert (run + [e])[j] == Finish(g, value) && NotClearedAfter(run + [e], j);
  }

  lemma JobsGrow(run: seq<Event>, e: Event, m: Model)
    requires JobsWereAsked(run, m)
    ensures JobsWereAsked(run + [e], m)
  {
    forall job | job in m.jobs
      ensures exists i :: Asked(run + [e], i, job.key, job.generation)
    {
      var i :| Asked(run, i, job.key, job.generation);
      AskedGrows(run, e, i, job.key, job.generation);
    }
  }

  lemma ShownGrows(run: seq<Event>, e: Event, m: Model)
    requires ShownIsAnswer(run, m)
    ensures ShownIsAnswer(run + [e], m)
  {
    hide CacheKey, Requests, Asked;
    if m.published != [] {
      var g := m.published[|m.published| - 1];
      var key :| Answers(run, g, key, m.shown);
      var i :| Asked(run, i, key, g);
      AskedGrows(run, e, i, key, g);
      ReportedGrows(run, e, key, m.shown);
      assert Answers(run + [e], g, key, m.shown);
    }
  }

  lemma ExplanationGrows(run: seq<Event>, e: Event, m: Model)
    requires JobsWereAsked(run, m) && CacheWasReported(run, m) && ShownIsAnswer(run, m) && !e.InvalidateCache?
    ensures JobsWereAsked(run + [e], m) && CacheWasReported(run + [e], m) && ShownIsAnswer(run + [e], m)
  {
    hide JobsWereAsked, ShownIsAnswer, ReportedSince;
    JobsGrow(run, e, m);
    ShownGrows(run, e, m);
    forall key | key in m.cache
      ensures ReportedSince(run + [e], key, m.cache[key])
    {
      ReportedSinceGrows(run, e, key, m.cache[key]);
    }
  }

  lemma SupersededExplained(run: seq<Event>, m: Model)
    requires JobsWereAsked(run, m) && CacheWasReported(run, m) && ShownIsAnswer(run, m)
    ensures JobsWereAsked(run, Superseded(m)) && CacheWasReported(run, Superseded(m)) && ShownIsAnswer(run, Superseded(m))
  {
    forall job | job in Superseded(m).jobs
      ensures exists i :: Asked(run, i, job.key, job.generation)
    {
      var i :| 0 <= i < |m.jobs| && Superseded(m).jobs[i] == job;
      assert m.jobs[i] in m.jobs && job == m.jobs[i].(cancelled := true);
    }
  }

  lemma StartIsAsked(run: seq<Event>, m: Model, q: Query)
    requires m.generation == Requests(run)
    ensures Requests(run + [Start(q)]) == m.generation + 1
    ensures Asked(run + [Start(q)], |run|, CacheKey(q), m.generation + 1)
  {
    var longer := run + [Start(q)];
    assert longer[..|longer| - 1] == run && longer[..|run| + 1] == longer;
    hide CacheKey;
  }

  /** The answer from the cache is explained by its request. */
  lemma CachedIsAnswer(run: seq<Event>, i: int, m: Model, key: Key)
    requires JobsWereAsked(run, m) && CacheWasReported(run, m) && key in m.cache && Asked(run, i, key, m.generation)
    ensures
      var next := Published(m, m.cache[key]);
      JobsWereAsked(run, next) && CacheWasReported(run, next) && ShownIsAnswer(run, next)
  {
    hide CacheKey, Requests, Asked;
    assert Reported(run, key, m.cache[key]);
    assert Answers(run, m.generation, key, m.cache[key]);
  }

  lemma QueuedWasAsked(run: seq<Event>, i: int, m: Model, key: Key)
    requires JobsWereAsked(run, m) && CacheWasReported(run, m) && ShownIsAnswer(run, m) && Asked(run, i, key, m.generation)
    ensures
      var next := m.(jobs := m.jobs + [Job(m.generation, key, false)], pending := m.pending + 1);
      JobsWereAsked(run, next) && CacheWasReported(run, next) && ShownIsAnswer(run, next)
  {
    hide CacheKey, Requests, Asked, Reported, IsAnswer;
  }

  lemma StartExplained(run: seq<Event>, m: Model, q: Query)
    requires Explained(run, m)
    ensures Explained(run + [Start(q)], Started(m, q))
  {
    var longer, key := run + [Start(q)], CacheKey(q);
    StartIsAsked(run, m, q);
    ExplanationGrows(run, Start(q), m);
    SupersededExplained(longer, m);
    hide CacheKey, Cancelled, Requests, Asked, Reported, JobsWereAsked, CacheWasReported, ShownIsAnswer;
    if key in m.cache {
      CachedIsAnswer(longer, |run|, Superseded(m), key);
    } else {
      QueuedWasAsked(longer, |run|, Superseded(m), key);
    }
  }

  lemma FinishExplained(run: seq<Event>, m: Model, job: Job, result: Forecasts)
    requires Explained(run, m) && CacheListed(m.cache, m.order) && job in m.jobs
    ensures Explained(run + [Finish(job.generation, result)], Finished(m, job, result))
  {
    var e := Finish(job.generation, result);
    var longer, next := run + [e], Finished(m, job, result);
    assert longer[..|longer| - 1] == run;
    var i :| Asked(run, i, job.key, job.generation);
    ExplanationGrows(run, e, m);
    AskedGrows(run, e, i, job.key, job.generation);
    assert longer[|run|] == e;
    assert NotClearedAfter(longer, |run|);
    assert Answers(longer, job.generation, job.key, result) && ReportedSince(longer, job.key, result);
    if IsCurrent(m, job) {
      StoredExplained(longer, m, job.key, result);
      assert next.published[|next.published| - 1] == job.generation;
    }
  }

  lemma StoredExplained(run: seq<Event>, m: Model, key: Key, value: Forecasts)
    requires CacheWasReported(run, m) && CacheListed(m.cache, m.order) && ReportedSince(run, key, value)
    ensures CacheWasReported(run, Stored(m, key, value))
  {
    StoredKeepsListed(m, key, value);
  }

  /** After every run: each cached answer was reported for a query with its key, after the cache
      was last cleared, and the forecasts shown are an answer to the request announced last. */
  lemma {:induction false} AnswersAreExplained(run: seq<Event>)
    requires IsRun(run)
    ensures Explained(run, After(run))
  {
    if run != [] {
      var init, e := run[..|run| - 1], run[|run| - 1];
      var m := After(init);
      assert run == init + [e];
      AnswersAreExplained(init);
      RunIsSound(init);
      match e
      case Start(q) => StartExplained(init, m, q);
      case Cancel =>
        ExplanationGrows(init, e, m);
        SupersededExplained(run, m);
      case InvalidateCache =>
        JobsGrow(init, e, m);
        ShownGrows(init, e, m);
      case Finish(g, result) =>
        var job :| IsOutstanding(m, g, job) && Step(m, e) == Finished(m, job, result);
        FinishExplained(init, m, job, result);
    }
  }

  /** Worker `j` reported `shown` for request `i`, whose query has the fields of request `k` and a
      time of the same minute; `k` is the request of generation `g`. */
  ghost predicate Serves(run: seq<Event>, i: int, j: int, k: int, g: nat, shown: Forecasts) {
    && 0 <= i < j < |run| && run[i].Start? && run[j] == Finish(Requests(run[..i + 1]), shown)
    && 0 <= k < |run| && run[k].Start? && Requests(run[..k + 1]) == g
    && run[i].query.fields == run[k].query.fields && SameTime(run[i].query.generatedAt, run[k].query.generatedAt)
  }

  ghost predicate IsServed(run: seq<Event>, g: nat, shown: Forecasts) {
    exists i, j, k :: Serves(run, i, j, k, g, shown)
  }

  lemma AnswerServes(run: seq<Event>, g: nat, key: Key, shown: Forecasts)
    requires Answers(run, g, key, shown)
    ensures IsServed(run, g, shown)
  {
    hide CacheKey, Requests;
    var k :| Asked(run, k, key, g);
    var i, j, asked :| Asked(run, i, key, asked) && i < j < |run| && run[j] == Finish(asked, shown);
    KeysAgreeIff(run[i].query, run[k].query);
    assert Serves(run, i, j, k, g, shown);
  }

  /** After every run: what is shown was reported for a query with the same fields and such a
      time as the request announced last. */
  lemma ShownServesRequest(run: seq<Event>)
    requires IsRun(run) && After(run).published != []
    ensures IsServed(run, After(run).published[|After(run).published| - 1], After(run).shown)
  {
    AnswersAreExplained(run);
    var m := After(run);
    hide Answers, IsServed, After, IsRun;
    var key :| Answers(run, m.published[|m.published| - 1], key, m.shown);
    AnswerServes(run, m.published[|m.published| - 1], key, m.shown);
  }

  /** After every run: a cached answer was reported, after the last clearing, for a query with
      the fields and the time of every query that it answers. */
  lemma CachedServesQueries(run: seq<Event>, q: Query)
    requires IsRun(run) && CacheKey(q) in After(run).cache
    ensures exists i, j ::
              && 0 <= i < j < |run| && run[i].Start? && run[j] == Finish(Requests(run[..i + 1]), After(run).cache[CacheKey(q)])
              && NotClearedAfter(run, j)
              && run[i].query.fields == q.fields && SameTime(run[i].query.generatedAt, q.generatedAt)
  {
    AnswersAreExplained(run);
    var value := After(run).cache[CacheKey(q)];
    var i, j, g :| Asked(run, i, CacheKey(q), g) && i < j < |run| && run[j] == Finish(g, value) && NotClearedAfter(run, j);
    hide CacheKey, Requests;
    KeysAgreeIff(run[i].query, q);
  }
}
