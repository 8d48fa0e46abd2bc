/** The preview requests of web/src/swath-catalog.ts: at most three at a time, one promise
    per key, kept for the page. Promise callbacks are steps of a machine, taken in any
    order their promises allow. */
module Previews {
  const PREVIEW_CONCURRENCY := 3

  /** One preview request and its promise; `id` numbers them as they are made. */
  datatype Job = Job(id: nat, key: string)

  /** What has become of the promises:
      - `started` requests were sent, in this order;
      - `settled` promises are decided, `refused` ones by a failure;
      - `forgotten` refusals have been taken from the cache;
      - `finished` requests have given their place to the next. */
  datatype Promises = Promises(started: seq<Job>, settled: set<Job>, refused: set<Job>,
                               forgotten: set<Job>, finished: set<Job>)

  datatype State = State(inFlight: int, queue: seq<Job>, cache: map<string, Job>, made: nat, promises: Promises)

  datatype Event =
    | Request(key: string)
    | Settle(job: Job, ok: bool)
    | Forget(job: Job)
    | Finish(job: Job)
    | Clear

  const INITIAL := State(0, [], map[], 0, Promises([], {}, {}, {}, {}))

  /** What may happen next: a sent request settles once; a refusal is forgotten once; a
      settled request finishes once. */
  predicate Possible(s: State, e: Event) {
    var p := s.promises;
    match e
    case Request(_) => true
    case Settle(job, _) => job in p.started && job !in p.settled
    case Forget(job) => job in p.refused && job !in p.forgotten
    case Finish(job) => job in p.settled && job !in p.finished
    case Clear => true
  }

  function Started(s: State, job: Job): State {
    s.(inFlight := s.inFlight + 1, promises := s.promises.(started := s.promises.started + [job]))
  }

  function Step(s: State, e: Event): State
    requires Possible(s, e)
  {
    var p := s.promises;
    match e
    case Request(key) =>
      if key in s.cache then s
      else
        var job := Job(s.made, key);
        var s' := if s.inFlight < PREVIEW_CONCURRENCY then Started(s, job) else s.(queue := s.queue + [job]);
        s'.(made := s.made + 1, cache := s.cache[key := job])
    case Settle(job, ok) =>
      s.(promises := p.(settled := p.settled + {job}, refused := if ok then p.refused else p.refused + {job}))
    case Forget(job) =>
      s.(cache := s.cache - {job.key}, promises := p.(forgotten := p.forgotten + {job}))
    case Finish(job) =>
      var s' := s.(inFlight := s.inFlight - 1, promises := p.(finished := p.finished + {job}));
      if s.queue == [] then s' else Started(s'.(queue := s.queue[1..]), s.queue[0])
    case Clear => s.(cache := map[])
  }

  predicate Playable(s: State, events: seq<Event>)
    decreases events
  {
    events == [] || (Possible(s, events[0]) && Playable(Step(s, events[0]), events[1..]))
  }

  function Played(s: State, events: seq<Event>): State
    requires Playable(s, events)
    decreases events
  {
    if events == [] then s else Played(Step(s, events[0]), events[1..])
  }

  // ----- Three in flight, in order -----

  /** Every job made, in the order of the requests: those started, then those waiting. */
  function Made(s: State): seq<Job> {
    s.promises.started + s.queue
  }

  ghost predicate Numbered(jobs: seq<Job>) {
    forall i :: 0 <= i < |jobs| ==> jobs[i].id == i
  }

  ghost predicate Tracked(s: State) {
    var p := s.promises;
    s.made == |Made(s)| && Numbered(Made(s)) &&
    (forall job :: job in p.settled ==> job in p.started) &&
    p.refused <= p.settled && p.finished <= p.settled && p.forgotten <= p.refused
  }

  /** The requests sent and not finished. */
  function Running(s: State): set<Job> {
    (set job | job in s.promises.started) - s.promises.finished
  }

  /** At most three requests are in flight, and a request waits only while three are. */
  ghost predicate Limited(s: State) {
    s.inFlight == |s.promises.started| - |s.promises.finished| &&
    s.inFlight <= PREVIEW_CONCURRENCY && (s.queue != [] ==> s.inFlight == PREVIEW_CONCURRENCY)
  }

  ghost predicate Valid(s: State) {
    Tracked(s) && Limited(s)
  }

  /** Every step keeps the limit, and starts jobs only in the order they were asked for. */
  lemma StepKeepsValid(s: State, e: Event)
    requires Valid(s) && Possible(s, e)
    ensures Valid(Step(s, e))
    ensures Made(s) <= Made(Step(s, e)) && s.promises.started <= Step(s, e).promises.started
  {
    var s' := Step(s, e);
    match e
    case Request(key) =>
      if key !in s.cache { assert Made(s') == Made(s) + [Job(s.made, key)]; }
    case Finish(job) =>
      if s.queue != [] { assert Made(s') == Made(s); }
    case _ =>
      assert Made(s') == Made(s);
  }

  lemma {:induction false} RunKeepsValid(s: State, events: seq<Event>)
    requires Valid(s) && Playable(s, events)
    ensures Valid(Played(s, events))
    ensures Made(s) <= Made(Played(s, events)) && s.promises.started <= Played(s, events).promises.started
    decreases events
  {
    hide Valid, Step, Possible;
    if events != [] {
      StepKeepsValid(s, events[0]);
      RunKeepsValid(Step(s, events[0]), events[1..]);
    }
  }

  lemma {:induction false} NumberedCount(jobs: seq<Job>)
    requires Numbered(jobs)
    ensures |set job | job in jobs| == |jobs|
  {
    if jobs != [] {
      var front, last := jobs[..|jobs| - 1], jobs[|jobs| - 1];
      NumberedCount(front);
      assert (set job | job in jobs) == (set job | job in front) + {last};
    }
  }

  /** The counter counts the requests running. */
  lemma InFlightCounts(s: State)
    requires Valid(s)
    ensures s.inFlight == |Running(s)|
  {
    var started := set job | job in s.promises.started;
    assert Numbered(s.promises.started) by {
      assert forall i :: 0 <= i < |s.promises.started| ==> s.promises.started[i] == Made(s)[i];
    }
    NumberedCount(s.promises.started);
    Difference(started, s.promises.finished);
  }

  lemma Difference(a: set<Job>, b: set<Job>)
    requires b <= a
    ensures |a - b| == |a| - |b|
  {
  }

  /** Whatever happens, in whatever order: never more than three requests run, a request
      waits only while three run, and requests are sent in the order they were made. */
  lemma EveryRunLimited(events: seq<Event>)
    requires Playable(INITIAL, events)
    ensures var s := Played(INITIAL, events);
            |Running(s)| <= 3 && (s.queue != [] ==> |Running(s)| == 3) &&
            Numbered(s.promises.started + s.queue)
  {
    hide Step, Possible;
    RunKeepsValid(INITIAL, events);
    InFlightCounts(Played(INITIAL, events));
  }

  // ----- How long a request waits -----

  function Finishes(events: seq<Event>): nat {
    if events == [] then 0 else (if events[0].Finish? then 1 else 0) + Finishes(events[1..])
  }

  /** A request at place `k` of the queue is sent at the `k + 1`st completion, no sooner and
      no later. */
  lemma {:induction false} StartsAfter(s: State, k: nat, events: seq<Event>)
    requires Valid(s) && k < |s.queue| && Playable(s, events)
    ensures s.queue[k] !in s.promises.started
    ensures s.queue[k] in Played(s, events).promises.started <==> Finishes(events) > k
    decreases events
  {
    hide Possible;
    var job := s.queue[k];
    WaitingUnstarted(s, k);
    if events != [] {
      var s' := Step(s, events[0]);
      StepKeepsValid(s, events[0]);
      if !events[0].Finish? {
        assert s'.queue[k] == job by { NonFinishWaits(s, k, events[0]); }
        StartsAfter(s', k, events[1..]);
      } else if k > 0 {
        StartsAfter(s', k - 1, events[1..]);
      } else {
        hide Valid, Step, Played;
        RunKeepsValid(s', events[1..]);
        assert job in s'.promises.started by { FinishStarts(s, events[0]); }
        assert Played(s, events) == Played(s', events[1..]) by { PlayedStep(s, events); }
      }
    }
  }

  lemma PlayedStep(s: State, events: seq<Event>)
    requires events != [] && Playable(s, events)
    ensures Played(s, events) == Played(Step(s, events[0]), events[1..])
  {
  }

  lemma FinishStarts(s: State, e: Event)
    requires s.queue != [] && e.Finish? && Possible(s, e)
    ensures s.queue[0] in Step(s, e).promises.started
  {
    assert Step(s, e).promises.started[|s.promises.started|] == s.queue[0];
  }

  lemma NonFinishWaits(s: State, k: nat, e: Event)
    requires Valid(s) && k < |s.queue| && Possible(s, e) && !e.Finish?
    ensures k < |Step(s, e).queue| && Step(s, e).queue[k] == s.queue[k]
  {
  }

  lemma WaitingUnstarted(s: State, k: nat)
    requires Tracked(s) && k < |s.queue|
    ensures s.queue[k] !in s.promises.started
  {
    var n := |s.promises.started|;
    assert Made(s)[n + k] == s.queue[k];
    forall i | 0 <= i < n
      ensures s.promises.started[i].id == i
    {
      assert Made(s)[i] == s.promises.started[i];
    }
  }

  // ----- One job per key -----

  /** Every job whose refusal has not been taken back is the one its key is cached under. */
  ghost predicate Cached(s: State) {
    forall job :: job in Made(s) && job !in s.promises.forgotten ==> job.key in s.cache && s.cache[job.key] == job
  }

  ghost predicate NoClear(events: seq<Event>) {
    forall i :: 0 <= i < |events| ==> !events[i].Clear?
  }

  lemma StepKeepsCached(s: State, e: Event)
    requires Valid(s) && Cached(s) && Possible(s, e) && !e.Clear?
    ensures Cached(Step(s, e))
  {
    var s' := Step(s, e);
    match e
    case Request(key) =>
      if key !in s.cache { assert Made(s') == Made(s) + [Job(s.made, key)]; }
    case Finish(job) =>
      if s.queue != [] { assert Made(s') == Made(s); }
    case Forget(job) =>
      assert Made(s') == Made(s);
      assert job in Made(s);
    case Settle(_, _) =>
      assert Made(s') == Made(s);
    case Clear =>
  }

  lemma {:induction false} RunKeepsCached(s: State, events: seq<Event>)
    requires Valid(s) && Cached(s) && Playable(s, events) && NoClear(events)
    ensures Cached(Played(s, events))
    decreases events
  {
    hide Valid, Step, Possible, Cached;
    if events != [] {
      assert !events[0].Clear?;
      StepKeepsValid(s, events[0]);
      StepKeepsCached(s, events[0]);
      RunKeepsCached(Step(s, events[0]), events[1..]);
    }
  }

  /** While the cache is not cleared, a key has at most one job whose refusal has not been
      taken from it: so never two undecided ones, and a preview that came is never asked
      for again. */
  lemma OneJobPerKey(events: seq<Event>, a: Job, b: Job)
    requires Playable(INITIAL, events) && NoClear(events)
    requires var s := Played(INITIAL, events);
             a in Made(s) && b in Made(s) && a !in s.promises.forgotten && b !in s.promises.forgotten
    requires a.key == b.key
    ensures a == b
  {
    hide Step, Possible;
    RunKeepsValid(INITIAL, events);
    RunKeepsCached(INITIAL, events);
  }

  /** Clearing the cache breaks this: the same preview is then asked for again while the
      first request still runs. */
  lemma ClearRepeats(key: string)
    ensures var events := [Request(key), Clear, Request(key)];
            Playable(INITIAL, events) &&
            Played(INITIAL, events).promises == Promises([Job(0, key), Job(1, key)], {}, {}, {}, {})
  {
    var again := [Request(key)];
    var cleared := [Clear, Request(key)];
    var events := [Request(key), Clear, Request(key)];
    var s1 := Step(INITIAL, Request(key));
    var s2 := Step(s1, Clear);
    var s3 := Step(s2, Request(key));
    assert events[1..] == cleared && cleared[1..] == again && again[1..] == [];
    assert Playable(s2, again) && Played(s2, again) == s3;
    assert Playable(s1, cleared) && Played(s1, cleared) == s3;
    assert Playable(INITIAL, events) && Played(INITIAL, events) == s3;
  }

  // ----- When the cache may be cleared -----

  /** A job that is undecided, or whose refusal is still to be taken from the cache. */
  predicate Open(s: State, job: Job) {
    job !in s.promises.settled || (job in s.promises.refused && job !in s.promises.forgotten)
  }

  /** Every open job is the one its key is cached under. */
  ghost predicate OpenCached(s: State) {
    forall job :: job in Made(s) && Open(s, job) ==> job.key in s.cache && s.cache[job.key] == job
  }

  ghost predicate NoneOpen(s: State) {
    forall job :: job in Made(s) ==> !Open(s, job)
  }

  /** No key has two undecided jobs. */
  ghost predicate OneUndecided(s: State) {
    forall a, b ::
      a in Made(s) && b in Made(s) && a !in s.promises.settled && b !in s.promises.settled && a.key == b.key ==> a == b
  }

  /** Whatever happens from here, short of a clearing, no key gets two undecided jobs. */
  ghost predicate StaysSingle(s: State) {
    forall events :: Playable(s, events) && NoClear(events) ==> OneUndecided(Played(s, events))
  }

  lemma StepKeepsOpenCached(s: State, e: Event)
    requires Valid(s) && OpenCached(s) && Possible(s, e) && (e.Clear? ==> NoneOpen(s))
    ensures OpenCached(Step(s, e))
  {
    var s' := Step(s, e);
    match e
    case Request(key) =>
      if key !in s.cache { assert Made(s') == Made(s) + [Job(s.made, key)]; }
    case Finish(job) =>
      if s.queue != [] { assert Made(s') == Made(s); }
    case Forget(job) =>
      assert Made(s') == Made(s);
      assert job in Made(s) && Open(s, job);
    case Settle(_, _) =>
      assert Made(s') == Made(s);
    case Clear =>
      assert Made(s') == Made(s);
  }

  lemma {:induction false} RunKeepsOpenCached(s: State, events: seq<Event>)
    requires Valid(s) && OpenCached(s) && Playable(s, events) && CleanClears(s, events)
    ensures OpenCached(Played(s, events))
    decreases events
  {
    hide Valid, Step, Possible, OpenCached, NoneOpen;
    if events != [] {
      StepKeepsValid(s, events[0]);
      StepKeepsOpenCached(s, events[0]);
      RunKeepsOpenCached(Step(s, events[0]), events[1..]);
    }
  }

  /** Each clearing of the run finds no job open. */
  ghost predicate CleanClears(s: State, events: seq<Event>)
    requires Playable(s, events)
    decreases events
  {
    events == [] || ((events[0].Clear? ==> NoneOpen(s)) && CleanClears(Step(s, events[0]), events[1..]))
  }

  lemma {:induction false} NoClearIsClean(s: State, events: seq<Event>)
    requires Playable(s, events) && NoClear(events)
    ensures CleanClears(s, events)
    decreases events
  {
    hide Step, Possible, NoneOpen;
    if events != [] {
      assert !events[0].Clear?;
      NoClearIsClean(Step(s, events[0]), events[1..]);
    }
  }

  /** Over every run in which the cache is cleared only while no job is open, a key has at
      most one open job. */
  lemma OneOpenPerKey(events: seq<Event>, a: Job, b: Job)
    requires Playable(INITIAL, events) && CleanClears(INITIAL, events)
    requires var s := Played(INITIAL, events);
             a in Made(s) && b in Made(s) && Open(s, a) && Open(s, b) && a.key == b.key
    ensures a == b
  {
    hide Step, Possible, CleanClears;
    RunKeepsOpenCached(INITIAL, events);
  }

  /** Clearing the cache, where each open job is the one cached, is harmless exactly while no
      job is open: then, and only then, does every later run keep each key to one undecided
      job until the next clearing. */
  lemma ClearHarmless(s: State)
    requires Valid(s) && OpenCached(s)
    ensures StaysSingle(Step(s, Clear)) <==> NoneOpen(s)
  {
    var cleared := Step(s, Clear);
    StepKeepsValid(s, Clear);
    assert Made(cleared) == Made(s);
    if NoneOpen(s) {
      StepKeepsOpenCached(s, Clear);
      forall events | Playable(cleared, events) && NoClear(events)
        ensures OneUndecided(Played(cleared, events))
      {
        NoClearIsClean(cleared, events);
        RunKeepsOpenCached(cleared, events);
      }
    } else {
      var job :| job in Made(s) && Open(s, job);
      var events := if job !in s.promises.settled then Again(job) else AgainAfterRefusal(job);
      if job !in s.promises.settled {
        AgainRepeats(cleared, job);
      } else {
        AgainAfterRefusalRepeats(cleared, job);
      }
      assert Playable(cleared, events) && NoClear(events) && !OneUndecided(Played(cleared, events));
    }
  }

  /** The key of a job is asked for again. */
  function Again(job: Job): seq<Event> {
    [Request(job.key)]
  }

  /** It is asked for again before and after the job's refusal is taken from the cache. */
  function AgainAfterRefusal(job: Job): seq<Event> {
    [Request(job.key), Forget(job), Request(job.key)]
  }

  lemma AgainRepeats(s: State, job: Job)
    requires Valid(s) && s.cache == map[] && job in Made(s) && job !in s.promises.settled
    ensures Playable(s, Again(job)) && NoClear(Again(job)) && !OneUndecided(Played(s, Again(job)))
  {
    var events := Again(job);
    var s1 := Step(s, events[0]);
    assert events[1..] == [] && Played(s, events) == s1;
    NewJob(s, job.key);
    assert job in Made(s1) && Job(s.made, job.key) in Made(s1);
  }

  /** A request for a key not cached makes a job no earlier one is. */
  lemma NewJob(s: State, key: string)
    requires Valid(s) && key !in s.cache
    ensures var s', job := Step(s, Request(key)), Job(s.made, key);
            Made(s') == Made(s) + [job] && job !in Made(s) && job !in s'.promises.settled &&
            s'.promises.settled == s.promises.settled && s'.promises.refused == s.promises.refused &&
            s'.promises.forgotten == s.promises.forgotten && s'.cache == s.cache[key := job]
  {
    var s', job := Step(s, Request(key)), Job(s.made, key);
    assert Made(s') == Made(s) + [job];
    assert forall i :: 0 <= i < |Made(s)| ==> Made(s)[i].id < s.made;
    assert forall settled :: settled in s.promises.settled ==> settled in Made(s);
  }

  lemma PlayedThree(s: State, e: Event, f: Event, g: Event)
    requires Possible(s, e) && Possible(Step(s, e), f) && Possible(Step(Step(s, e), f), g)
    ensures Playable(s, [e, f, g]) && Played(s, [e, f, g]) == Step(Step(Step(s, e), f), g)
  {
    hide Step, Possible;
    var events := [e, f, g];
    var s1 := Step(s, e);
    var s2 := Step(s1, f);
    assert events[1..] == [f, g] && events[1..][1..] == [g] && events[1..][1..][1..] == [];
    assert Playable(s2, events[1..][1..]) && Played(s2, events[1..][1..]) == Step(s2, g);
    assert Playable(s1, events[1..]) && Played(s1, events[1..]) == Step(s2, g);
  }

  lemma AgainAfterRefusalRepeats(s: State, job: Job)
    requires Valid(s) && s.cache == map[] && job in Made(s)
    requires job in s.promises.refused && job !in s.promises.forgotten
    ensures var events := AgainAfterRefusal(job);
            Playable(s, events) && NoClear(events) && !OneUndecided(Played(s, events))
  {
    var key := job.key;
    var s1 := Step(s, Request(key));
    StepKeepsValid(s, Request(key));
    NewJob(s, key);
    var s2 := Step(s1, Forget(job));
    StepKeepsValid(s1, Forget(job));
    assert Made(s2) == Made(s1);
    NewJob(s2, key);
    hide Step, Valid, NoClear;
    PlayedThree(s, Request(key), Forget(job), Request(key));
    assert Job(s.made, key) in Made(s1) && Job(s2.made, key) in Made(Step(s2, Request(key)));
    NoneIsClear(AgainAfterRefusal(job));
  }

  lemma NoneIsClear(events: seq<Event>)
    requires |events| == 3 && !events[0].Clear? && !events[1].Clear? && !events[2].Clear?
    ensures NoClear(events)
  {
  }

  // ----- The catalog -----

  class Catalog {
    var inFlight: int
    var queue: seq<Job>
    var thumbnails: map<string, Job>
    var made: nat
    ghost var promises: Promises

    ghost function Now(): State
      reads this
    {
      State(inFlight, queue, thumbnails, made, promises)
    }

    constructor ()
      ensures Now() == INITIAL && Valid(Now())
    {
      inFlight, queue, thumbnails, made := 0, [], map[], 0;
      promises := INITIAL.promises;
    }

    /** Sends a request. */
    method Run(job: Job)
      modifies this
      ensures Now() == Started(old(Now()), job)
    {
      inFlight := inFlight + 1;
      promises := promises.(started := promises.started + [job]);
    }

    /** The promise of a key's preview: the cached one, or a new one, sent at once while
        fewer than three are in flight. */
    method Thumbnail(key: string) returns (job: Job)
      requires Valid(Now())
      modifies this
      ensures Now() == Step(old(Now()), Request(key)) && Valid(Now())
      ensures key in thumbnails && thumbnails[key] == job
    {
      StepKeepsValid(Now(), Request(key));
      if key in thumbnails {
        return thumbnails[key];
      }
      job := Job(made, key);
      if inFlight < PREVIEW_CONCURRENCY {
        Run(job);
      } else {
        queue := queue + [job];
      }
      made := made + 1;
      thumbnails := thumbnails[key := job];
    }

    /** A sent request is answered, or refused. */
    ghost method Settled(job: Job, ok: bool)
      requires Valid(Now()) && Possible(Now(), Settle(job, ok))
      modifies this`promises
      ensures Now() == Step(old(Now()), Settle(job, ok)) && Valid(Now())
    {
      StepKeepsValid(Now(), Settle(job, ok));
      promises := promises.(settled := promises.settled + {job},
        refused := if ok then promises.refused else promises.refused + {job});
    }

    /** A refusal is retried on the next request for its key. */
    method OnRefused(job: Job)
      requires Valid(Now()) && Possible(Now(), Forget(job))
      modifies this
      ensures Now() == Step(old(Now()), Forget(job)) && Valid(Now())
      ensures job.key !in thumbnails
    {
      StepKeepsValid(Now(), Forget(job));
      thumbnails := thumbnails - {job.key};
      promises := promises.(forgotten := promises.forgotten + {job});
    }

    /** A settled request gives its place to the next in the queue. */
    method OnFinished(job: Job)
      requires Valid(Now()) && Possible(Now(), Finish(job))
      modifies this
      ensures Now() == Step(old(Now()), Finish(job)) && Valid(Now())
    {
      StepKeepsValid(Now(), Finish(job));
      inFlight := inFlight - 1;
      promises := promises.(finished := promises.finished + {job});
      if queue != [] {
        var next := queue[0];
        queue := queue[1..];
        Run(next);
      }
    }

    method ClearThumbnailCache()
      requires Valid(Now())
      modifies this`thumbnails
      ensures Now() == Step(old(Now()), Clear) && Valid(Now())
    {
      StepKeepsValid(Now(), Clear);
      thumbnails := map[];
    }
  }
}
