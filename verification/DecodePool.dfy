/** The worker pool that decodes chunks off the main thread. */
module DecodePool {
  import opened Vectors

  /** A dispatched request: the message id it was sent under, and the `decode` call it serves. */
  datatype Job = Job(id: nat, call: nat)

  /** The promise of a `decode` call was resolved or rejected. */
  datatype Settlement = Settlement(call: nat, ok: bool)

  /** Workers are numbered as spawned; `jobs` are the workers with one. */
  datatype Pool = Pool(
    poolSize: nat, workers: seq<nat>, idle: seq<nat>, queue: seq<nat>, jobs: map<nat, Job>,
    nextId: nat, started: bool, terminated: bool, spawned: nat, dead: set<nat>, calls: nat, settled: seq<Settlement>)

  function NewPool(size: int): Pool {
    Pool(if size > 1 then size else 1, [], [], [], map[], 1, false, false, 0, {}, 0, [])
  }

  function Settle(p: Pool, call: nat, ok: bool): Pool {
    p.(settled := p.settled + [Settlement(call, ok)])
  }

  function Numbers(from: nat, n: nat): (r: seq<nat>)
    ensures |r| == n
    ensures forall k :: 0 <= k < n ==> r[k] == from + k
  {
    seq(n, k requires 0 <= k => from + k)
  }

  lemma NumbersHold(from: nat, n: nat)
    ensures forall x :: x in Numbers(from, n) <==> from <= x < from + n
    ensures Distinct(Numbers(from, n))
  {
    forall x | from <= x < from + n ensures x in Numbers(from, n) {
      assert Numbers(from, n)[x - from] == x;
    }
  }

  /** Spawn the workers, all idle. */
  function Started(p: Pool): Pool {
    if p.started then p
    else
      var ws := Numbers(p.spawned, p.poolSize);
      p.(started := true, workers := p.workers + ws, idle := p.idle + ws, spawned := p.spawned + p.poolSize)
  }

  function Dispatch(p: Pool, w: nat, call: nat): Pool {
    p.(jobs := p.jobs[w := Job(p.nextId, call)], nextId := p.nextId + 1)
  }

  function Placed(p: Pool, call: nat): Pool {
    if p.idle != [] then Dispatch(p.(idle := p.idle[..|p.idle| - 1]), p.idle[|p.idle| - 1], call)
    else p.(queue := p.queue + [call])
  }

  /** A `decode` call: to an idle worker if there is one, else to the queue. */
  function Decoded(p: Pool): Pool {
    var call, q := p.calls, p.(calls := p.calls + 1);
    if p.terminated then Settle(q, call, false) else Placed(Started(q), call)
  }

  /** A worker is free again: it takes the oldest queued call, or idles. */
  function Released(p: Pool, w: nat): Pool {
    if p.terminated then p
    else if p.queue != [] then Dispatch(p.(queue := p.queue[1..]), w, p.queue[0])
    else p.(idle := p.idle + [w])
  }

  /** A reply; stale ones are ignored. */
  function Replied(p: Pool, w: nat, id: nat, ok: bool): Pool {
    if w !in p.jobs || p.jobs[w].id != id then p
    else Released(Settle(p.(jobs := p.jobs - {w}), p.jobs[w].call, ok), w)
  }

  function Without(s: seq<nat>, w: nat): (r: seq<nat>)
    ensures forall x :: x in r <==> x in s && x != w
  {
    if s == [] then []
    else
      assert s == [s[0]] + s[1..];
      if s[0] == w then Without(s[1..], w) else [s[0]] + Without(s[1..], w)
  }

  /** Replace a dead worker, unless the pool is being torn down. */
  function Replaced(p: Pool, w: nat): Pool {
    var q := p.(workers := Without(p.workers, w), idle := Without(p.idle, w), dead := p.dead + {w});
    if p.terminated then q
    else Released(q.(workers := q.workers + [p.spawned], spawned := p.spawned + 1), p.spawned)
  }

  /** A worker error fails its job, if it has one, and the worker is replaced. */
  function Errored(p: Pool, w: nat): Pool {
    if w in p.jobs then Replaced(Settle(p.(jobs := p.jobs - {w}), p.jobs[w].call, false), w) else Replaced(p, w)
  }

  function Rejections(calls: seq<nat>): (r: seq<Settlement>)
    ensures |r| == |calls|
    ensures forall k :: 0 <= k < |calls| ==> r[k] == Settlement(calls[k], false)
  {
    seq(|calls|, k requires 0 <= k < |calls| => Settlement(calls[k], false))
  }

  /** The calls running on these workers, in worker order. */
  function Running(workers: seq<nat>, jobs: map<nat, Job>): seq<nat> {
    if workers == [] then []
    else (if workers[0] in jobs then [jobs[workers[0]].call] else []) + Running(workers[1..], jobs)
  }

  function Terminated(p: Pool): Pool {
    p.(terminated := true, queue := [], workers := [], idle := [], jobs := map[],
       settled := p.settled + Rejections(p.queue) + Rejections(Running(p.workers, p.jobs)))
  }

  datatype Event = Decode | Reply(worker: nat, id: nat, ok: bool) | Error(worker: nat) | Terminate

  /** Only spawned workers speak, and each raises an error at most once. */
  predicate Possible(p: Pool, e: Event) {
    match e
    case Reply(w, _, _) => w < p.spawned
    case Error(w) => w < p.spawned && w !in p.dead
    case _ => true
  }

  function Apply(p: Pool, e: Event): Pool {
    match e
    case Decode => Decoded(p)
    case Reply(w, id, ok) => Replied(p, w, id, ok)
    case Error(w) => Errored(p, w)
    case Terminate => Terminated(p)
  }

  // ---------------------------------------------------------------- invariants

  /** The workers: the running pool keeps its size, and every living worker is in it. */
  ghost predicate CrewOk(p: Pool) {
    && p.poolSize >= 1 && Distinct(p.workers)
    && (forall w :: w in p.workers ==> w < p.spawned && w !in p.dead)
    && (p.started && !p.terminated ==> |p.workers| == p.poolSize)
    && (p.started && !p.terminated ==> forall w :: 0 <= w < p.spawned && w !in p.dead ==> w in p.workers)
    && (!p.started || p.terminated ==> p.workers == [])
    && (!p.started ==> p.spawned == 0 && p.dead == {})
    && (forall w :: w in p.dead ==> w < p.spawned)
  }

  /** The idle workers are those without a job, and work queues only when there is none. */
  ghost predicate IdleOk(p: Pool) {
    && Distinct(p.idle)
    && (forall w :: w in p.idle <==> w in p.workers && w !in p.jobs)
    && (forall w :: w in p.jobs ==> w in p.workers)
    && (p.queue != [] ==> p.idle == [] && p.started && !p.terminated)
  }

  ghost predicate WorkersOk(p: Pool) {
    CrewOk(p) && IdleOk(p)
  }

  /** Message ids are never reused, so a reply can only match the job it answers. */
  ghost predicate IdsOk(p: Pool) {
    && (forall w :: w in p.jobs ==> p.jobs[w].id < p.nextId)
    && (forall v, w :: v in p.jobs && w in p.jobs && p.jobs[v].id == p.jobs[w].id ==> v == w)
  }

  ghost predicate IsSettled(settled: seq<Settlement>, call: nat) {
    exists k :: 0 <= k < |settled| && settled[k].call == call
  }

  ghost predicate IsRunning(jobs: map<nat, Job>, call: nat) {
    exists w :: w in jobs && jobs[w].call == call
  }

  /** Nothing sits in two places: queue, workers and settled promises are disjoint and without repetition. */
  ghost predicate ApartOk(queue: seq<nat>, jobs: map<nat, Job>, settled: seq<Settlement>) {
    && Distinct(queue)
    && (forall v, w :: v in jobs && w in jobs && jobs[v].call == jobs[w].call ==> v == w)
    && (forall i, j :: 0 <= i < j < |settled| ==> settled[i].call != settled[j].call)
    && (forall w :: w in jobs ==> jobs[w].call !in queue)
    && (forall k :: 0 <= k < |settled| ==> settled[k].call !in queue)
    && (forall k, w :: 0 <= k < |settled| && w in jobs ==> settled[k].call != jobs[w].call)
  }

  /** Every call so far is somewhere, and nothing else is. */
  ghost predicate PlacesOk(calls: nat, queue: seq<nat>, jobs: map<nat, Job>, settled: seq<Settlement>) {
    && (forall c :: 0 <= c < calls ==> c in queue || IsRunning(jobs, c) || IsSettled(settled, c))
    && (forall c :: c in queue ==> c < calls)
    && (forall w :: w in jobs ==> jobs[w].call < calls)
    && (forall k :: 0 <= k < |settled| ==> settled[k].call < calls)
  }

  ghost predicate Inv(p: Pool) {
    && WorkersOk(p) && IdsOk(p)
    && ApartOk(p.queue, p.jobs, p.settled) && PlacesOk(p.calls, p.queue, p.jobs, p.settled)
  }

  lemma NewPoolHolds(size: int)
    ensures Inv(NewPool(size)) && InOrder(NewPool(size))
  {
  }

  // ---------------------------------------------------- how calls change place

  lemma SettledGrows(settled: seq<Settlement>, more: seq<Settlement>, call: nat)
    ensures IsSettled(settled + more, call) <==> IsSettled(settled, call) || IsSettled(more, call)
  {
    var all := settled + more;
    if IsSettled(settled, call) {
      var k :| 0 <= k < |settled| && settled[k].call == call;
      assert all[k].call == call;
    }
    if IsSettled(more, call) {
      var k :| 0 <= k < |more| && more[k].call == call;
      assert all[|settled| + k].call == call;
    }
    if IsSettled(all, call) {
      var k :| 0 <= k < |all| && all[k].call == call;
      assert k < |settled| ==> settled[k].call == call;
      assert k >= |settled| ==> more[k - |settled|].call == call;
    }
  }

  lemma OneSettled(call: nat, ok: bool)
    ensures forall c :: IsSettled([Settlement(call, ok)], c) <==> c == call
  {
    assert [Settlement(call, ok)][0].call == call;
  }

  lemma RunningGrows(jobs: map<nat, Job>, w: nat, job: Job)
    requires w !in jobs
    ensures forall c :: IsRunning(jobs[w := job], c) <==> IsRunning(jobs, c) || c == job.call
  {
    forall c ensures IsRunning(jobs[w := job], c) <==> IsRunning(jobs, c) || c == job.call {
      if IsRunning(jobs, c) {
        var v :| v in jobs && jobs[v].call == c;
        assert v in jobs[w := job];
      }
      assert w in jobs[w := job] && jobs[w := job][w] == job;
    }
  }

  lemma RunningShrinks(jobs: map<nat, Job>, w: nat)
    requires w in jobs
    ensures forall c :: IsRunning(jobs, c) ==> IsRunning(jobs - {w}, c) || c == jobs[w].call
  {
    forall c | IsRunning(jobs, c) && c != jobs[w].call ensures IsRunning(jobs - {w}, c) {
      var v :| v in jobs && jobs[v].call == c;
      assert v in jobs - {w};
    }
  }

  ghost predicate Located(calls: nat, queue: seq<nat>, jobs: map<nat, Job>, settled: seq<Settlement>) {
    ApartOk(queue, jobs, settled) && PlacesOk(calls, queue, jobs, settled)
  }

  lemma NewCallQueues(calls: nat, queue: seq<nat>, jobs: map<nat, Job>, settled: seq<Settlement>)
    requires Located(calls, queue, jobs, settled)
    ensures Located(calls + 1, queue + [calls], jobs, settled)
  {
    hide IsRunning, IsSettled;
    assert forall c :: c in queue + [calls] <==> c in queue || c == calls;
    assert forall i :: 0 <= i < |queue| ==> queue[i] in queue;
  }

  lemma JobStarts(queue: seq<nat>, jobs: map<nat, Job>, settled: seq<Settlement>, w: nat, job: Job)
    requires ApartOk(queue, jobs, settled) && w !in jobs && job.call !in queue
    requires !IsRunning(jobs, job.call) && !IsSettled(settled, job.call)
    ensures ApartOk(queue, jobs[w := job], settled)
  {
  }

  lemma NewCallRuns(calls: nat, queue: seq<nat>, jobs: map<nat, Job>, settled: seq<Settlement>, w: nat, job: Job)
    requires Located(calls, queue, jobs, settled) && w !in jobs && job.call == calls
    ensures Located(calls + 1, queue, jobs[w := job], settled)
  {
    RunningGrows(jobs, w, job);
    JobStarts(queue, jobs, settled, w, job);
    hide ApartOk, IsRunning, IsSettled;
  }

  lemma NewCallRejected(calls: nat, queue: seq<nat>, jobs: map<nat, Job>, settled: seq<Settlement>)
    requires Located(calls, queue, jobs, settled)
    ensures Located(calls + 1, queue, jobs, settled + [Settlement(calls, false)])
  {
    hide IsRunning, IsSettled;
    OneSettled(calls, false);
    forall c ensures IsSettled(settled + [Settlement(calls, false)], c) <==> IsSettled(settled, c) || c == calls {
      SettledGrows(settled, [Settlement(calls, false)], c);
    }
  }

  lemma JobSettles(calls: nat, queue: seq<nat>, jobs: map<nat, Job>, settled: seq<Settlement>, w: nat, ok: bool)
    requires Located(calls, queue, jobs, settled) && w in jobs
    ensures Located(calls, queue, jobs - {w}, settled + [Settlement(jobs[w].call, ok)])
  {
    hide IsRunning, IsSettled;
    var call := jobs[w].call;
    RunningShrinks(jobs, w);
    OneSettled(call, ok);
    forall c ensures IsSettled(settled + [Settlement(call, ok)], c) <==> IsSettled(settled, c) || c == call {
      SettledGrows(settled, [Settlement(call, ok)], c);
    }
  }

  lemma HeadLeaves(queue: seq<nat>, jobs: map<nat, Job>, settled: seq<Settlement>)
    requires ApartOk(queue, jobs, settled) && queue != []
    ensures ApartOk(queue[1..], jobs, settled) && !IsRunning(jobs, queue[0]) && !IsSettled(settled, queue[0])
  {
    DistinctHead(queue);
  }

  lemma HeadRuns(calls: nat, queue: seq<nat>, jobs: map<nat, Job>, settled: seq<Settlement>, w: nat, job: Job)
    requires Located(calls, queue, jobs, settled) && queue != [] && w !in jobs && job.call == queue[0]
    ensures Located(calls, queue[1..], jobs[w := job], settled)
  {
    RunningGrows(jobs, w, job);
    HeadLeaves(queue, jobs, settled);
    QueueHead(queue, jobs, settled);
    JobStarts(queue[1..], jobs, settled, w, job);
    hide ApartOk, IsRunning, IsSettled;
  }

  lemma QueueHead(queue: seq<nat>, jobs: map<nat, Job>, settled: seq<Settlement>)
    requires ApartOk(queue, jobs, settled) && queue != []
    ensures queue[0] !in queue[1..] && forall x :: x in queue <==> x == queue[0] || x in queue[1..]
  {
    DistinctHead(queue);
  }

  // --------------------------------------------------------- workers in each step

  lemma DispatchIds(p: Pool, w: nat, call: nat)
    requires IdsOk(p)
    ensures IdsOk(Dispatch(p, w, call))
  {
  }

  /** A free worker takes the head of the queue or idles. */
  lemma ReleaseKeepsWorkers(p: Pool, w: nat)
    requires p.started && !p.terminated && w in p.workers && w !in p.jobs && w !in p.idle
    requires WorkersOk(p.(idle := p.idle + [w], queue := []))
    requires p.queue != [] ==> p.idle == []
    ensures WorkersOk(Released(p, w))
  {
    if p.queue != [] {
      assert p.idle + [w] == [w];
    }
  }

  lemma ReleaseKeepsPlaces(p: Pool, w: nat)
    requires IdsOk(p) && Located(p.calls, p.queue, p.jobs, p.settled) && w !in p.jobs
    ensures var t := Released(p, w);
            IdsOk(t) && Located(t.calls, t.queue, t.jobs, t.settled)
  {
    hide Located;
    if !p.terminated && p.queue != [] {
      HeadRuns(p.calls, p.queue, p.jobs, p.settled, w, Job(p.nextId, p.queue[0]));
      DispatchIds(p.(queue := p.queue[1..]), w, p.queue[0]);
    }
  }

  lemma HeadIn(s: seq<nat>)
    ensures s == [] || s[0] in s
  {
  }

  lemma StartKeepsWorkers(p: Pool)
    requires WorkersOk(p) && !p.terminated
    ensures WorkersOk(Started(p)) && Started(p).started
  {
    NumbersHold(p.spawned, p.poolSize);
    if !p.started {
      assert p.workers + Numbers(0, p.poolSize) == Numbers(0, p.poolSize);
      HeadIn(p.idle);
      assert p.idle + Numbers(0, p.poolSize) == Numbers(0, p.poolSize);
    }
  }

  lemma TakeIdle(p: Pool, call: nat)
    requires WorkersOk(p) && p.started && !p.terminated && p.idle != []
    ensures WorkersOk(Dispatch(p.(idle := p.idle[..|p.idle| - 1]), p.idle[|p.idle| - 1], call))
    ensures p.idle[|p.idle| - 1] !in p.jobs
  {
  }

  lemma DistinctAppend(s: seq<nat>, w: nat)
    requires Distinct(s) && w !in s
    ensures Distinct(s + [w])
  {
    assert forall i :: 0 <= i < |s| ==> s[i] in s;
  }

  lemma {:induction false} WithoutOne(s: seq<nat>, w: nat)
    requires Distinct(s)
    ensures Distinct(Without(s, w))
    ensures |Without(s, w)| == if w in s then |s| - 1 else |s|
  {
    if s != [] {
      DistinctHead(s);
      WithoutOne(s[1..], w);
      if s[0] != w {
        DistinctPrepend(s[0], Without(s[1..], w));
      }
    }
  }

  lemma DistinctPrepend(x: nat, s: seq<nat>)
    requires Distinct(s) && x !in s
    ensures Distinct([x] + s)
  {
  }

  /** A reply frees its worker. */
  lemma FreedWorkerIdles(p: Pool, w: nat)
    requires WorkersOk(p) && w in p.jobs
    ensures var q := p.(jobs := p.jobs - {w});
            && w !in q.idle && w in q.workers && p.started && !p.terminated
            && WorkersOk(q.(idle := q.idle + [w], queue := []))
  {
    DistinctAppend(p.idle, w);
  }

  /** Swapping one member for a fresh one keeps a list free of repetition, and its size. */
  lemma ReplaceOne(s: seq<nat>, w: nat, x: nat)
    requires Distinct(s) && x !in s
    ensures var r := Without(s, w) + [x];
            && Distinct(r) && |r| == (if w in s then |s| else |s| + 1)
            && forall y :: y in r <==> y == x || (y in s && y != w)
  {
    hide Distinct, Without;
    WithoutOne(s, w);
    DistinctAppend(Without(s, w), x);
  }

  lemma SpawnedIsNew(p: Pool)
    requires WorkersOk(p)
    ensures p.spawned !in p.workers && p.spawned !in p.idle && p.spawned !in p.jobs
    ensures Distinct(p.workers) && Distinct(p.idle)
  {
  }

  /** The pool with a dead worker replaced, before the fresh worker idles or takes a call. */
  function WithFresh(p: Pool, w: nat): Pool {
    p.(workers := Without(p.workers, w) + [p.spawned], idle := Without(p.idle, w), jobs := p.jobs - {w},
       dead := p.dead + {w}, spawned := p.spawned + 1)
  }

  lemma FreshCrew(p: Pool, w: nat)
    requires CrewOk(p) && w < p.spawned && w !in p.dead && p.started && !p.terminated && p.spawned !in p.workers
    ensures CrewOk(WithFresh(p, w))
  {
    hide Distinct, Without;
    ReplaceOne(p.workers, w, p.spawned);
  }

  lemma FreshIdles(p: Pool, w: nat)
    requires IdleOk(p) && w in p.workers && p.spawned !in p.workers && p.spawned !in p.jobs && p.spawned !in p.idle
    requires Distinct(p.workers)
    ensures var q := WithFresh(p, w);
            IdleOk(q.(idle := q.idle + [p.spawned], queue := []))
  {
    hide Distinct, Without;
    ReplaceOne(p.workers, w, p.spawned);
    ReplaceOne(p.idle, w, p.spawned);
  }

  /** A dead worker is replaced by one fresh worker, so the pool keeps its size. */
  lemma FreshWorkerIdles(p: Pool, w: nat)
    requires WorkersOk(p) && w < p.spawned && w !in p.dead && p.started && !p.terminated
    ensures var q := WithFresh(p, w);
            && p.spawned !in q.idle && p.spawned in q.workers && p.spawned !in q.jobs
            && WorkersOk(q.(idle := q.idle + [p.spawned], queue := []))
            && (p.queue != [] ==> q.idle == [])
  {
    SpawnedIsNew(p);
    LivingIsIn(p, w);
    FreshCrew(p, w);
    FreshIdles(p, w);
    CrewIgnoresIdle(WithFresh(p, w), Without(p.idle, w) + [p.spawned]);
    EmptyStays(p.idle, w);
    QueueMeansBusy(p);
    hide CrewOk, IdleOk, Distinct;
  }

  lemma LivingIsIn(p: Pool, w: nat)
    requires CrewOk(p) && w < p.spawned && w !in p.dead && p.started && !p.terminated
    ensures w in p.workers
  {
  }

  lemma CrewIgnoresIdle(p: Pool, idle: seq<nat>)
    requires CrewOk(p)
    ensures CrewOk(p.(idle := idle, queue := []))
  {
  }

  lemma EmptyStays(s: seq<nat>, w: nat)
    ensures s == [] ==> Without(s, w) == []
  {
  }

  // --------------------------------------------------------------- every event

  lemma DecodeKeeps(p: Pool)
    requires Inv(p)
    ensures Inv(Decoded(p))
  {
    hide WorkersOk, IdsOk, ApartOk, PlacesOk, Started, Dispatch;
    var call, q := p.calls, p.(calls := p.calls + 1);
    if p.terminated {
      RejectKeeps(p);
    } else {
      StartKeepsWorkers(p);
      StartedPlaces(p);
      var r := Started(q);
      if r.idle != [] {
        TakeIdle(r, call);
        var w := r.idle[|r.idle| - 1];
        NewCallRuns(p.calls, p.queue, p.jobs, p.settled, w, Job(r.nextId, call));
        DispatchIds(r.(idle := r.idle[..|r.idle| - 1]), w, call);
        DispatchFields(r.(idle := r.idle[..|r.idle| - 1]), w, call);
      } else {
        NewCallQueues(p.calls, p.queue, p.jobs, p.settled);
        QueueKeepsWorkers(r, call);
      }
    }
  }

  lemma RejectKeeps(p: Pool)
    requires Inv(p) && p.terminated
    ensures Inv(Settle(p.(calls := p.calls + 1), p.calls, false))
  {
    hide ApartOk, PlacesOk;
    NewCallRejected(p.calls, p.queue, p.jobs, p.settled);
  }

  lemma DispatchFields(p: Pool, w: nat, call: nat)
    ensures var t := Dispatch(p, w, call);
            && t.calls == p.calls && t.queue == p.queue && t.settled == p.settled && t.jobs == p.jobs[w := Job(p.nextId, call)]
  {
  }

  lemma QueueKeepsWorkers(p: Pool, call: nat)
    requires WorkersOk(p) && IdsOk(p) && p.started && !p.terminated && p.idle == []
    ensures WorkersOk(p.(queue := p.queue + [call])) && IdsOk(p.(queue := p.queue + [call]))
  {
  }

  /** Starting commutes with counting the call, and moves no call. */
  lemma StartedPlaces(p: Pool)
    requires WorkersOk(p) && IdsOk(p) && !p.terminated
    ensures var r := Started(p.(calls := p.calls + 1));
            && r == Started(p).(calls := p.calls + 1) && WorkersOk(r) == WorkersOk(Started(p)) && IdsOk(r)
            && r.started && !r.terminated && r.queue == p.queue && r.jobs == p.jobs && r.settled == p.settled && r.calls == p.calls + 1
  {
  }

  lemma ReplyKeeps(p: Pool, w: nat, id: nat, ok: bool)
    requires Inv(p)
    ensures Inv(Replied(p, w, id, ok))
  {
    hide WorkersOk, ApartOk, PlacesOk, Released;
    if w in p.jobs && p.jobs[w].id == id {
      var q := Settle(p.(jobs := p.jobs - {w}), p.jobs[w].call, ok);
      JobSettles(p.calls, p.queue, p.jobs, p.settled, w, ok);
      FreedWorkerIdles(p, w);
      QueueMeansBusy(p);
      WorkersIgnoreSettled(q.(idle := q.idle + [w], queue := []), p.(jobs := p.jobs - {w}, idle := p.idle + [w], queue := []));
      ReleaseKeepsWorkers(q, w);
      ReleaseKeepsPlaces(q, w);
    }
  }

  lemma QueueMeansBusy(p: Pool)
    requires WorkersOk(p)
    ensures p.queue != [] ==> p.idle == []
  {
  }

  lemma WorkersIgnoreSettled(p: Pool, q: Pool)
    requires WorkersOk(q) && p == q.(settled := p.settled)
    ensures WorkersOk(p)
  {
  }

  /** The pool after a worker died and before its replacement takes a call. */
  function AfterDeath(p: Pool, w: nat): Pool {
    var q := p.(workers := Without(p.workers, w), idle := Without(p.idle, w), dead := p.dead + {w}, jobs := p.jobs - {w},
                settled := if w in p.jobs then p.settled + [Settlement(p.jobs[w].call, false)] else p.settled);
    if p.terminated then q else q.(workers := q.workers + [p.spawned], spawned := p.spawned + 1)
  }

  lemma ErrorIsDeathThenRelease(p: Pool, w: nat)
    ensures Errored(p, w) == if p.terminated then AfterDeath(p, w) else Released(AfterDeath(p, w), p.spawned)
  {
    hide Released;
    if w !in p.jobs {
      assert p.jobs - {w} == p.jobs;
    }
  }

  lemma DeathKeepsPlaces(p: Pool, w: nat)
    requires Inv(p)
    ensures var q := AfterDeath(p, w);
            IdsOk(q) && Located(q.calls, q.queue, q.jobs, q.settled)
  {
    hide WorkersOk, ApartOk, PlacesOk;
    if w in p.jobs {
      JobSettles(p.calls, p.queue, p.jobs, p.settled, w, false);
    } else {
      assert p.jobs - {w} == p.jobs;
    }
  }

  lemma LateDeathKeepsWorkers(p: Pool, w: nat)
    requires WorkersOk(p) && p.terminated && w < p.spawned
    ensures WorkersOk(AfterDeath(p, w))
  {
    HeadIn(p.idle);
    HeadIn(Without(p.workers, w));
    HeadIn(Without(p.idle, w));
  }

  lemma SpawnedMeansStarted(p: Pool, w: nat)
    requires WorkersOk(p) && w < p.spawned
    ensures p.started
  {
  }

  lemma ErrorKeeps(p: Pool, w: nat)
    requires Inv(p) && w < p.spawned && w !in p.dead
    ensures Inv(Errored(p, w))
  {
    hide WorkersOk, IdsOk, ApartOk, PlacesOk, Released;
    var q := AfterDeath(p, w);
    ErrorIsDeathThenRelease(p, w);
    DeathKeepsPlaces(p, w);
    if p.terminated {
      LateDeathKeepsWorkers(p, w);
    } else {
      SpawnedMeansStarted(p, w);
      FreshWorkerIdles(p, w);
      var busy := q.(settled := p.settled);
      WorkersIgnoreSettled(q.(idle := q.idle + [p.spawned], queue := []), busy.(idle := q.idle + [p.spawned], queue := []));
      ReleaseKeepsWorkers(q, p.spawned);
      ReleaseKeepsPlaces(q, p.spawned);
    }
  }

  // --------------------------------------------------------------- terminating

  lemma {:induction false} RunningMembers(workers: seq<nat>, jobs: map<nat, Job>, c: nat)
    ensures c in Running(workers, jobs) <==> exists w :: w in workers && w in jobs && jobs[w].call == c
  {
    if workers != [] {
      RunningMembers(workers[1..], jobs, c);
      assert workers == [workers[0]] + workers[1..];
    }
  }

  lemma {:induction false} RunningDistinct(workers: seq<nat>, jobs: map<nat, Job>)
    requires Distinct(workers)
    requires forall v, w :: v in jobs && w in jobs && jobs[v].call == jobs[w].call ==> v == w
    ensures Distinct(Running(workers, jobs))
  {
    if workers != [] {
      DistinctHead(workers);
      RunningDistinct(workers[1..], jobs);
      if workers[0] in jobs {
        RunningMembers(workers[1..], jobs, jobs[workers[0]].call);
        DistinctPrepend(jobs[workers[0]].call, Running(workers[1..], jobs));
      }
    }
  }

  lemma RejectionsSettle(calls: seq<nat>, c: nat)
    ensures IsSettled(Rejections(calls), c) <==> c in calls
  {
    if c in calls {
      var k :| 0 <= k < |calls| && calls[k] == c;
      assert Rejections(calls)[k].call == c;
    }
  }

  ghost predicate OnceEach(settled: seq<Settlement>) {
    forall i, j :: 0 <= i < j < |settled| ==> settled[i].call != settled[j].call
  }

  lemma OnceEachAppend(settled: seq<Settlement>, calls: seq<nat>)
    requires OnceEach(settled) && Distinct(calls) && forall c :: c in calls ==> !IsSettled(settled, c)
    ensures OnceEach(settled + Rejections(calls))
  {
    forall i, k | 0 <= i < |settled| && 0 <= k < |calls| ensures settled[i].call != calls[k] {
      assert calls[k] in calls;
    }
  }

  lemma TerminateOnceEach(p: Pool)
    requires Inv(p)
    ensures OnceEach(Terminated(p).settled)
  {
    hide IdsOk, PlacesOk, Rejections, Running;
    var running := Running(p.workers, p.jobs);
    RunningDistinct(p.workers, p.jobs);
    OnceEachAppend(p.settled, p.queue);
    forall c | c in running ensures !IsSettled(p.settled + Rejections(p.queue), c) {
      RunningMembers(p.workers, p.jobs, c);
      SettledGrows(p.settled, Rejections(p.queue), c);
      RejectionsSettle(p.queue, c);
    }
    OnceEachAppend(p.settled + Rejections(p.queue), running);
  }

  lemma RunningIsSettled(p: Pool, c: nat)
    requires WorkersOk(p)
    ensures IsRunning(p.jobs, c) <==> c in Running(p.workers, p.jobs)
  {
    RunningMembers(p.workers, p.jobs, c);
    if IsRunning(p.jobs, c) {
      var w :| w in p.jobs && p.jobs[w].call == c;
      assert w in p.workers;
    }
  }

  lemma TerminateSettles(p: Pool, c: nat)
    requires WorkersOk(p)
    ensures IsSettled(Terminated(p).settled, c) <==> IsSettled(p.settled, c) || c in p.queue || IsRunning(p.jobs, c)
  {
    hide WorkersOk, Rejections, Running, IsRunning, IsSettled;
    var running := Running(p.workers, p.jobs);
    SettledGrows(p.settled + Rejections(p.queue), Rejections(running), c);
    SettledGrows(p.settled, Rejections(p.queue), c);
    RejectionsSettle(p.queue, c);
    RejectionsSettle(running, c);
    RunningIsSettled(p, c);
  }

  lemma TerminatePlaces(p: Pool)
    requires Inv(p)
    ensures PlacesOk(p.calls, [], map[], Terminated(p).settled)
  {
    hide WorkersOk, IdsOk, ApartOk, Terminated;
    var t := Terminated(p);
    forall c | 0 <= c < p.calls ensures IsSettled(t.settled, c) {
      TerminateSettles(p, c);
    }
    forall k | 0 <= k < |t.settled| ensures t.settled[k].call < p.calls {
      var c := t.settled[k].call;
      assert IsSettled(t.settled, c);
      TerminateSettles(p, c);
    }
  }

  lemma TerminateKeeps(p: Pool)
    requires Inv(p)
    ensures Inv(Terminated(p))
  {
    hide PlacesOk, Rejections, Running;
    TerminateOnceEach(p);
    TerminatePlaces(p);
  }

  // ------------------------------------------------------------------ whole runs

  lemma EventKeepsInv(p: Pool, e: Event)
    requires Inv(p) && Possible(p, e)
    ensures Inv(Apply(p, e))
  {
    hide Inv;
    match e
    case Decode => DecodeKeeps(p);
    case Reply(w, id, ok) => ReplyKeeps(p, w, id, ok);
    case Error(w) => ErrorKeeps(p, w);
    case Terminate => TerminateKeeps(p);
  }

  ghost predicate Executes(p: Pool, events: seq<Event>, q: Pool)
    decreases |events|
  {
    if events == [] then p == q
    else Possible(p, events[0]) && Executes(Apply(p, events[0]), events[1..], q)
  }

  /** Every state of every run of calls, replies, errors and terminations satisfies the invariant. */
  lemma {:induction false} RunsKeepInv(p: Pool, events: seq<Event>, q: Pool)
    requires Inv(p) && Executes(p, events, q)
    ensures Inv(q)
    decreases |events|
  {
    hide Inv, Apply, Possible;
    if events != [] {
      EventKeepsInv(p, events[0]);
      RunsKeepInv(Apply(p, events[0]), events[1..], q);
    }
  }

  /** While the pool runs it has its size, its idle workers are those without a job, and work only queues behind busy workers. */
  lemma RunningPoolIsFull(p: Pool)
    requires Inv(p) && p.started && !p.terminated
    ensures |p.workers| == p.poolSize && Distinct(p.workers)
    ensures forall w :: w in p.idle <==> w in p.workers && w !in p.jobs
    ensures p.queue != [] ==> forall w :: w in p.workers ==> w in p.jobs
  {
    hide IdsOk, ApartOk, PlacesOk;
  }

  /**
   An error keeps the size of a running pool exactly when it comes from a current worker: a second
   error of the same worker would grow the pool by one.
   */
  lemma ErrorKeepsSizeIff(p: Pool, w: nat)
    requires Inv(p) && p.started && !p.terminated
    ensures |Errored(p, w).workers| == p.poolSize <==> w in p.workers
    ensures w !in p.workers ==> |Errored(p, w).workers| == p.poolSize + 1
  {
    hide IdsOk, ApartOk, PlacesOk;
    WithoutOne(p.workers, w);
  }

  /**
   Two errors of one worker: after a call and a first error the pool of one has its replacement,
   and a second error of the dead worker leaves it with two.
   */
  lemma SecondErrorGrowsPool()
    ensures Executes(NewPool(1), [Decode, Error(0)], Errored(Decoded(NewPool(1)), 0))
    ensures var p := Errored(Decoded(NewPool(1)), 0);
            0 in p.dead && |p.workers| == 1 == p.poolSize && |Errored(p, 0).workers| == 2
  {
    OneWorker();
    var p := Decoded(NewPool(1));
    assert Executes(p, [Error(0)], Errored(p, 0));
    assert [Decode, Error(0)][1..] == [Error(0)];
    assert Without([1], 0) == [1] && Without([0], 0) == [];
  }

  lemma OneWorker()
    ensures Decoded(NewPool(1)) == Pool(1, [0], [], [], map[0 := Job(1, 0)], 2, true, false, 1, {}, 1, [])
  {
    assert Numbers(0, 1) == [0];
  }

  function SettledCalls(settled: seq<Settlement>): (calls: seq<nat>)
    ensures |calls| == |settled|
    ensures forall k :: 0 <= k < |settled| ==> calls[k] == settled[k].call
  {
    seq(|settled|, k requires 0 <= k < |settled| => settled[k].call)
  }

  lemma SettledOnce(settled: seq<Settlement>, c: nat)
    requires OnceEach(settled)
    ensures multiset(SettledCalls(settled))[c] == if IsSettled(settled, c) then 1 else 0
  {
    var calls := SettledCalls(settled);
    DistinctCount(calls, c);
    if IsSettled(settled, c) {
      var k :| 0 <= k < |settled| && settled[k].call == c;
      assert calls[k] == c;
    }
  }

  /** Each `decode` call is in exactly one place, once: queued, on one worker, or settled. */
  lemma EachCallInOnePlace(p: Pool, c: nat)
    requires Inv(p) && c < p.calls
    ensures multiset(p.queue)[c] + multiset(Running(p.workers, p.jobs))[c] + multiset(SettledCalls(p.settled))[c] == 1
  {
    hide IdsOk, SettledCalls, Running;
    RunningDistinct(p.workers, p.jobs);
    DistinctCount(p.queue, c);
    DistinctCount(Running(p.workers, p.jobs), c);
    RunningIsSettled(p, c);
    SettledOnce(p.settled, c);
  }

  /** After `terminate` every call, earlier or later, is settled, exactly once. */
  lemma TerminatedSettlesAll(p: Pool, c: nat)
    requires Inv(p) && p.terminated && c < p.calls
    ensures multiset(SettledCalls(p.settled))[c] == 1
  {
    hide IdsOk, SettledCalls, Running, Inv;
    EachCallInOnePlace(p, c);
    TerminatedIsIdle(p);
  }

  lemma TerminatedIsIdle(p: Pool)
    requires Inv(p) && p.terminated
    ensures p.queue == [] && Running(p.workers, p.jobs) == []
  {
    hide IdsOk, ApartOk, PlacesOk;
  }

  /** A settled call never changes: settlements are only appended, by every event. */
  lemma SettlementsAreFinal(p: Pool, e: Event)
    ensures p.settled <= Apply(p, e).settled
  {
    hide Rejections, Running;
  }

  // -------------------------------------------- how a call ends, seen from the events

  /** The pool after a list of events. */
  ghost function After(p: Pool, events: seq<Event>): Pool
    decreases |events|
  {
    if events == [] then p else After(Apply(p, events[0]), events[1..])
  }

  /** A worker runs a call that was sent to it under this message id. */
  ghost predicate Serves(p: Pool, w: nat, id: nat, c: nat) {
    w in p.jobs && p.jobs[w].id == id && p.jobs[w].call == c
  }

  /**
   The event settles the call: a reply to the message its worker runs settles it as the reply says,
   and it is rejected by an error of its worker, by termination if it is still open, or if it is
   made after termination.
   */
  ghost predicate SettlesNow(p: Pool, e: Event, c: nat, ok: bool) {
    match e
    case Decode => !ok && p.terminated && c == p.calls
    case Reply(w, id, good) => ok == good && Serves(p, w, id, c)
    case Error(w) => !ok && exists id: nat :: Serves(p, w, id, c)
    case Terminate => !ok && c < p.calls && Settlement(c, true) !in p.settled && Settlement(c, false) !in p.settled
  }

  lemma ListedIsSettled(settled: seq<Settlement>, c: nat)
    ensures IsSettled(settled, c) <==> Settlement(c, true) in settled || Settlement(c, false) in settled
  {
    if IsSettled(settled, c) {
      var k :| 0 <= k < |settled| && settled[k].call == c;
      assert settled[k] in settled;
    }
  }

  lemma RejectionsMembers(calls: seq<nat>, c: nat, ok: bool)
    ensures Settlement(c, ok) in Rejections(calls) <==> !ok && c in calls
  {
    if c in calls {
      var k :| 0 <= k < |calls| && calls[k] == c;
      assert Rejections(calls)[k] == Settlement(c, false);
    }
  }

  lemma OpenIsQueuedOrRunning(p: Pool, c: nat)
    requires Inv(p)
    ensures c in p.queue || c in Running(p.workers, p.jobs) <==> c < p.calls && !IsSettled(p.settled, c)
  {
    hide IdsOk, Running;
    RunningIsSettled(p, c);
    if c in p.queue {
      var k :| 0 <= k < |p.queue| && p.queue[k] == c;
    }
  }

  lemma TerminateSettlesOpen(p: Pool, c: nat, ok: bool)
    requires Inv(p)
    ensures Settlement(c, ok) in Terminated(p).settled <==> Settlement(c, ok) in p.settled || SettlesNow(p, Terminate, c, ok)
  {
    hide Inv, Rejections, Running, IsSettled;
    RejectionsMembers(p.queue, c, ok);
    RejectionsMembers(Running(p.workers, p.jobs), c, ok);
    OpenIsQueuedOrRunning(p, c);
    ListedIsSettled(p.settled, c);
  }

  lemma ErrorSettles(p: Pool, w: nat, c: nat, ok: bool)
    ensures Settlement(c, ok) in Errored(p, w).settled <==> Settlement(c, ok) in p.settled || SettlesNow(p, Error(w), c, ok)
  {
    hide Without;
    if w in p.jobs && p.jobs[w].call == c {
      assert Serves(p, w, p.jobs[w].id, c);
    }
  }

  lemma StepSettles(p: Pool, e: Event, c: nat, ok: bool)
    requires Inv(p)
    ensures Settlement(c, ok) in Apply(p, e).settled <==> Settlement(c, ok) in p.settled || SettlesNow(p, e, c, ok)
  {
    hide Inv, Terminated, Errored;
    match e
    case Error(w) => ErrorSettles(p, w, c, ok);
    case Terminate => TerminateSettlesOpen(p, c, ok);
    case _ =>
  }

  /** A run, seen from its last event. */
  lemma {:induction false} LastEvent(p: Pool, events: seq<Event>, q: Pool)
    requires Executes(p, events, q) && events != []
    ensures var n := |events| - 1;
            var mid := After(p, events[..n]);
            Executes(p, events[..n], mid) && Possible(mid, events[n]) && q == Apply(mid, events[n])
    decreases |events|
  {
    hide Apply, Possible;
    var n := |events| - 1;
    if n > 0 {
      LastEvent(Apply(p, events[0]), events[1..], q);
      assert events[1..][..n - 1] == events[..n][1..];
    } else {
      assert events[..0] == [] && events[1..] == [];
    }
  }

  /**
   In every run from a new pool a call is settled, and as it is, exactly by one of the events that
   settle it.
   */
  lemma {:induction false} SettledExactly(size: int, events: seq<Event>, q: Pool, c: nat, ok: bool)
    requires Executes(NewPool(size), events, q)
    ensures Settlement(c, ok) in q.settled <==>
              exists k :: 0 <= k < |events| && SettlesNow(After(NewPool(size), events[..k]), events[k], c, ok)
    decreases |events|
  {
    hide Inv, Apply, Possible, SettlesNow, Executes;
    if events == [] {
      NothingYet(size, q);
    } else {
      var n := |events| - 1;
      var init := events[..n];
      LastEvent(NewPool(size), events, q);
      var mid := After(NewPool(size), init);
      SettledExactly(size, init, mid, c, ok);
      NewPoolHolds(size);
      RunsKeepInv(NewPool(size), init, mid);
      StepSettles(mid, events[n], c, ok);
      assert forall k :: 0 <= k < n ==> init[..k] == events[..k] && init[k] == events[k];
    }
  }

  lemma NothingYet(size: int, q: Pool)
    requires Executes(NewPool(size), [], q)
    ensures q == NewPool(size) && q.settled == []
  {
  }

  function Decodes(events: seq<Event>): nat {
    if events == [] then 0 else Decodes(events[..|events| - 1]) + if events[|events| - 1] == Decode then 1 else 0
  }

  lemma StepCounts(p: Pool, e: Event)
    ensures Apply(p, e).calls == p.calls + if e == Decode then 1 else 0
    ensures Apply(p, e).poolSize == p.poolSize
    ensures Apply(p, e).terminated == (p.terminated || e == Terminate)
    ensures forall w: nat :: w in Apply(p, e).dead <==> w in p.dead || e == Error(w)
  {
    hide Without, Rejections, Running, Numbers;
  }

  /** The pool has the size asked for, and calls are numbered as they are made; a pool is terminated, and a worker dead, exactly from its event on. */
  lemma {:induction false} StateOfEvents(size: int, events: seq<Event>, q: Pool)
    requires Executes(NewPool(size), events, q)
    ensures q == After(NewPool(size), events) && Inv(q)
    ensures q.poolSize == if size > 1 then size else 1
    ensures q.calls == Decodes(events) && (q.terminated <==> Terminate in events)
    ensures forall w: nat :: w in q.dead <==> Error(w) in events
    decreases |events|
  {
    hide Inv, Apply, Possible, Executes;
    NewPoolHolds(size);
    RunsKeepInv(NewPool(size), events, q);
    if events == [] {
      NothingYet(size, q);
    } else {
      var n := |events| - 1;
      LastEvent(NewPool(size), events, q);
      var mid := After(NewPool(size), events[..n]);
      StateOfEvents(size, events[..n], mid);
      StepCounts(mid, events[n]);
      AfterLast(NewPool(size), events);
      assert events == events[..n] + [events[n]];
    }
  }

  lemma {:induction false} AfterLast(p: Pool, events: seq<Event>)
    requires events != []
    ensures After(p, events) == Apply(After(p, events[..|events| - 1]), events[|events| - 1])
    decreases |events|
  {
    hide Apply;
    var n := |events| - 1;
    if n > 0 {
      AfterLast(Apply(p, events[0]), events[1..]);
      assert events[1..][..n - 1] == events[..n][1..];
    } else {
      assert events[..0] == [] && events[1..] == [];
    }
  }

  lemma ServingLives(p: Pool, w: nat, id: nat, c: nat)
    requires Inv(p) && Serves(p, w, id, c)
    ensures w !in p.dead && !p.terminated && c < p.calls
  {
    hide IdsOk, ApartOk;
  }

  lemma {:induction false} Prefix(p: Pool, events: seq<Event>, q: Pool, k: nat)
    requires Executes(p, events, q) && k <= |events|
    ensures Executes(p, events[..k], After(p, events[..k]))
    decreases |events|
  {
    hide Apply, Possible;
    if k > 0 {
      Prefix(Apply(p, events[0]), events[1..], q, k - 1);
      assert events[1..][..k - 1] == events[..k][1..];
    } else {
      assert events[..0] == [];
    }
  }

  /** At event `k` the worker that runs the call answers well, and neither it has raised an error nor the pool been terminated before. */
  ghost predicate GoodReply(size: int, events: seq<Event>, k: nat, w: nat, id: nat, c: nat)
    requires k < |events|
  {
    && events[k] == Reply(w, id, true) && Serves(After(NewPool(size), events[..k]), w, id, c)
    && Error(w) !in events[..k] && Terminate !in events[..k]
  }

  /** A call resolves exactly with a good reply of the worker that runs it, before any error of that worker and before termination. */
  lemma ResolvedExactly(size: int, events: seq<Event>, q: Pool, c: nat)
    requires Executes(NewPool(size), events, q)
    ensures Settlement(c, true) in q.settled <==> exists k: nat, w: nat, id: nat :: k < |events| && GoodReply(size, events, k, w, id, c)
  {
    hide Inv, Apply, Possible, Executes, Serves;
    SettledExactly(size, events, q, c, true);
    if Settlement(c, true) in q.settled {
      var k :| 0 <= k < |events| && SettlesNow(After(NewPool(size), events[..k]), events[k], c, true);
      Prefix(NewPool(size), events, q, k);
      StateOfEvents(size, events[..k], After(NewPool(size), events[..k]));
      ServingLives(After(NewPool(size), events[..k]), events[k].worker, events[k].id, c);
      assert GoodReply(size, events, k, events[k].worker, events[k].id, c);
    }
    if k: nat, w: nat, id: nat :| k < |events| && GoodReply(size, events, k, w, id, c) {
      assert SettlesNow(After(NewPool(size), events[..k]), events[k], c, true);
    }
  }

  /**
   At event `k` the worker that runs the call answers badly or dies, the pool is terminated with the
   call made and not yet settled, or the call is made with the pool already terminated.
   */
  ghost predicate Failure(size: int, events: seq<Event>, k: nat, c: nat)
    requires k < |events|
  {
    match events[k]
    case Reply(w, id, good) => !good && Serves(After(NewPool(size), events[..k]), w, id, c)
    case Error(w) => exists id: nat :: Serves(After(NewPool(size), events[..k]), w, id, c)
    case Terminate =>
      && c < Decodes(events[..k])
      && Settlement(c, true) !in After(NewPool(size), events[..k]).settled
      && Settlement(c, false) !in After(NewPool(size), events[..k]).settled
    case Decode => c == Decodes(events[..k]) && Terminate in events[..k]
  }

  /** A call rejects exactly with one of these. */
  lemma RejectedExactly(size: int, events: seq<Event>, q: Pool, c: nat)
    requires Executes(NewPool(size), events, q)
    ensures Settlement(c, false) in q.settled <==> exists k: nat :: k < |events| && Failure(size, events, k, c)
  {
    hide Inv, Apply, Possible, Executes, Serves;
    SettledExactly(size, events, q, c, false);
    forall k: nat | k < |events|
      ensures SettlesNow(After(NewPool(size), events[..k]), events[k], c, false) <==> Failure(size, events, k, c)
    {
      Prefix(NewPool(size), events, q, k);
      StateOfEvents(size, events[..k], After(NewPool(size), events[..k]));
    }
  }

  // -------------------------------------------------------------- first come, first served

  ghost predicate Increasing(s: seq<nat>) {
    forall i, j :: 0 <= i < j < |s| ==> s[i] < s[j]
  }

  /** Whatever runs or has been settled was called before everything that still queues, and calls queue in order. */
  ghost predicate InOrder(p: Pool) {
    && Increasing(p.queue)
    && (forall w, k :: w in p.jobs && 0 <= k < |p.queue| ==> p.jobs[w].call < p.queue[k])
    && (forall i, k :: 0 <= i < |p.settled| && 0 <= k < |p.queue| ==> p.settled[i].call < p.queue[k])
  }

  lemma ReleaseInOrder(p: Pool, w: nat)
    requires InOrder(p)
    ensures InOrder(Released(p, w))
  {
  }

  lemma SettleInOrder(p: Pool, w: nat, ok: bool)
    requires InOrder(p) && w in p.jobs
    ensures InOrder(Settle(p.(jobs := p.jobs - {w}), p.jobs[w].call, ok))
  {
  }

  lemma DecodeInOrder(p: Pool)
    requires Inv(p) && InOrder(p)
    ensures InOrder(Decoded(p))
  {
    hide CrewOk, IdsOk, ApartOk, Numbers;
    QueuedBefore(p);
  }

  lemma QueuedBefore(p: Pool)
    requires Inv(p)
    ensures forall k :: 0 <= k < |p.queue| ==> p.queue[k] < p.calls
    ensures forall w :: w in p.jobs ==> p.jobs[w].call < p.calls
    ensures forall i :: 0 <= i < |p.settled| ==> p.settled[i].call < p.calls
  {
    hide WorkersOk, IdsOk, ApartOk;
    assert forall k :: 0 <= k < |p.queue| ==> p.queue[k] in p.queue;
  }

  lemma ErrorInOrder(p: Pool, w: nat)
    requires InOrder(p)
    ensures InOrder(Errored(p, w))
  {
    hide Without, InOrder, Released;
    var q := if w in p.jobs then Settle(p.(jobs := p.jobs - {w}), p.jobs[w].call, false) else p;
    if w in p.jobs {
      SettleInOrder(p, w, false);
    }
    var d := q.(workers := Without(q.workers, w), idle := Without(q.idle, w), dead := q.dead + {w});
    OrderIgnoresWorkers(q, d);
    var f := d.(workers := d.workers + [q.spawned], spawned := q.spawned + 1);
    OrderIgnoresWorkers(d, f);
    ReleaseInOrder(f, q.spawned);
  }

  lemma OrderIgnoresWorkers(p: Pool, q: Pool)
    requires InOrder(p) && q.queue == p.queue && q.jobs == p.jobs && q.settled == p.settled
    ensures InOrder(q)
  {
  }

  lemma EventInOrder(p: Pool, e: Event)
    requires Inv(p) && InOrder(p)
    ensures InOrder(Apply(p, e))
  {
    hide Inv, InOrder, Decoded, Errored, Released;
    match e
    case Decode => DecodeInOrder(p);
    case Reply(w, id, ok) =>
      if w in p.jobs && p.jobs[w].id == id {
        SettleInOrder(p, w, ok);
        ReleaseInOrder(Settle(p.(jobs := p.jobs - {w}), p.jobs[w].call, ok), w);
      }
    case Error(w) => ErrorInOrder(p, w);
    case Terminate => EmptyQueueInOrder(Terminated(p));
  }

  lemma EmptyQueueInOrder(p: Pool)
    requires p.queue == []
    ensures InOrder(p)
  {
  }

  /** In every run calls start in the order they were made. */
  lemma {:induction false} RunsInOrder(p: Pool, events: seq<Event>, q: Pool)
    requires Inv(p) && InOrder(p) && Executes(p, events, q)
    ensures InOrder(q)
    decreases |events|
  {
    hide Inv, InOrder, Apply, Possible;
    if events != [] {
      EventKeepsInv(p, events[0]);
      EventInOrder(p, events[0]);
      RunsInOrder(Apply(p, events[0]), events[1..], q);
    }
  }

  lemma DecodedSettles(p: Pool)
    ensures Decoded(p).settled == p.settled + if p.terminated then [Settlement(p.calls, false)] else []
  {
    hide Numbers;
  }

  lemma RepliedSettles(p: Pool, w: nat, id: nat, ok: bool)
    ensures if w in p.jobs && p.jobs[w].id == id then Replied(p, w, id, ok).settled == p.settled + [Settlement(p.jobs[w].call, ok)]
            else Replied(p, w, id, ok) == p
  {
  }

  lemma ErroredSettles(p: Pool, w: nat)
    ensures Errored(p, w).settled == p.settled + if w in p.jobs then [Settlement(p.jobs[w].call, false)] else []
  {
    hide Without;
  }

  // ------------------------------------------------------------------- the class

  class WorkerPool {
    const poolSize: nat
    var workers: seq<nat>
    var idle: seq<nat>
    var queue: seq<nat>
    var jobs: map<nat, Job>
    var nextId: nat
    var started: bool
    var terminated: bool
    var spawned: nat
    var calls: nat
    ghost var dead: set<nat>
    ghost var settled: seq<Settlement>

    ghost function View(): Pool
      reads this
    {
      Pool(poolSize, workers, idle, queue, jobs, nextId, started, terminated, spawned, dead, calls, settled)
    }

    ghost predicate Valid()
      reads this
    {
      Inv(View())
    }

    constructor (size: int)
      ensures Valid() && View() == NewPool(size)
    {
      poolSize := if size > 1 then size else 1;
      workers, idle, queue, jobs := [], [], [], map[];
      nextId, started, terminated, spawned, calls := 1, false, false, 0, 0;
      dead, settled := {}, [];
      new;
      NewPoolHolds(size);
    }

    method EnsureStarted()
      modifies this
      ensures View() == Started(old(View()))
    {
      if started {
        return;
      }
      started := true;
      ghost var first := spawned;
      for i := 0 to poolSize
        invariant View() == old(View()).(started := true, workers := old(workers) + Numbers(first, i),
                                         idle := old(idle) + Numbers(first, i), spawned := first + i)
      {
        assert Numbers(first, i + 1) == Numbers(first, i) + [first + i];
        workers := workers + [spawned];
        idle := idle + [spawned];
        spawned := spawned + 1;
      }
    }

    method DispatchTo(w: nat, call: nat)
      modifies this
      ensures View() == Dispatch(old(View()), w, call)
    {
      var id := nextId;
      nextId := nextId + 1;
      jobs := jobs[w := Job(id, call)];
    }

    method Release(w: nat)
      modifies this
      ensures View() == Released(old(View()), w)
    {
      if terminated {
        return;
      }
      if |queue| > 0 {
        var next := queue[0];
        queue := queue[1..];
        DispatchTo(w, next);
      } else {
        idle := idle + [w];
      }
    }

    /** Ask for a decode; the call is served, queued, or after termination rejected at once. */
    method Decode() returns (call: nat)
      requires Valid()
      modifies this
      ensures Valid() && View() == Decoded(old(View())) && call == old(calls)
      ensures settled == old(settled) + if old(terminated) then [Settlement(call, false)] else []
    {
      hide Inv, Placed, Started;
      DecodeKeeps(View());
      DecodedSettles(View());
      call := calls;
      calls := calls + 1;
      if terminated {
        settled := settled + [Settlement(call, false)];
        return;
      }
      EnsureStarted();
      Place(call);
    }

    method Place(call: nat)
      modifies this
      ensures View() == Placed(old(View()), call)
    {
      if |idle| > 0 {
        var w := idle[|idle| - 1];
        idle := idle[..|idle| - 1];
        DispatchTo(w, call);
      } else {
        queue := queue + [call];
      }
    }

    /** A worker's reply. */
    method OnMessage(w: nat, id: nat, ok: bool)
      requires Valid()
      modifies this
      ensures Valid() && View() == Replied(old(View()), w, id, ok)
      ensures if w in old(jobs) && old(jobs)[w].id == id then settled == old(settled) + [Settlement(old(jobs)[w].call, ok)]
              else View() == old(View())
    {
      hide Inv, Released;
      ReplyKeeps(View(), w, id, ok);
      RepliedSettles(View(), w, id, ok);
      if w !in jobs || jobs[w].id != id {
        return;
      }
      var job := jobs[w];
      jobs := jobs - {w};
      settled := settled + [Settlement(job.call, ok)];
      Release(w);
    }

    /** A worker died: its job fails, and a fresh worker takes its place. */
    method OnError(w: nat)
      requires Valid() && Possible(View(), Error(w))
      modifies this
      ensures Valid() && View() == Errored(old(View()), w)
      ensures settled == old(settled) + if w in old(jobs) then [Settlement(old(jobs)[w].call, false)] else []
    {
      hide Inv, Released;
      ErrorKeeps(View(), w);
      ErroredSettles(View(), w);
      if w in jobs {
        settled := settled + [Settlement(jobs[w].call, false)];
        jobs := jobs - {w};
      }
      HandleDeath(w);
    }

    method HandleDeath(w: nat)
      modifies this
      ensures View() == Replaced(old(View()), w)
    {
      hide Released;
      workers := Without(workers, w);
      idle := Without(idle, w);
      dead := dead + {w};
      if terminated {
        return;
      }
      var replacement := spawned;
      spawned := spawned + 1;
      workers := workers + [replacement];
      Release(replacement);
    }

    /** Reject everything queued and running, and drop the workers. */
    method Terminate()
      requires Valid()
      modifies this
      ensures Valid() && View() == Terminated(old(View()))
      ensures terminated && queue == [] && workers == [] && jobs == map[]
      ensures old(settled) <= settled && forall k :: |old(settled)| <= k < |settled| ==> !settled[k].ok
    {
      hide Inv, Rejections, Running;
      TerminateKeeps(View());
      JobsHaveWorkers(View());
      terminated := true;
      ghost var before := settled;
      var pending := queue;
      queue := [];
      RejectionsOf(pending, 0);
      for k := 0 to |pending|
        invariant View() == old(View()).(terminated := true, queue := [], settled := before + Rejections(pending[..k]))
      {
        settled := settled + [Settlement(pending[k], false)];
        RejectionsGrow(pending, k);
      }
      assert pending[..|pending|] == pending;
      RejectWorkers();
    }

    method RejectWorkers()
      requires Distinct(workers) && forall w :: w in jobs ==> w in workers
      modifies this
      ensures View() == old(View()).(workers := [], idle := [], jobs := map[],
                                     settled := old(settled) + Rejections(Running(old(workers), old(jobs))))
    {
      hide Rejections, Running;
      var all := workers;
      workers, idle := [], [];
      ghost var jobs0, before := jobs, settled;
      RejectingBegins(all, jobs0, before);
      for k := 0 to |all|
        invariant View() == old(View()).(workers := [], idle := [], jobs := jobs, settled := settled)
        invariant Rejecting(all, k, jobs0, before, jobs, settled)
      {
        RejectingStep(all, k, jobs0, before, jobs, settled);
        if all[k] in jobs {
          settled := settled + [Settlement(jobs[all[k]].call, false)];
          jobs := jobs - {all[k]};
        }
      }
      assert all[..|all|] == all;
    }
  }

  /** The first `k` workers have been told, and their jobs rejected. */
  ghost predicate Rejecting(all: seq<nat>, k: nat, jobs0: map<nat, Job>, before: seq<Settlement>, jobs: map<nat, Job>, settled: seq<Settlement>)
    requires k <= |all|
  {
    jobs == jobs0 - Members(all[..k]) && settled == before + Rejections(Running(all[..k], jobs0))
  }

  ghost function Members(s: seq<nat>): set<nat> {
    set x | x in s
  }

  lemma RejectingBegins(all: seq<nat>, jobs0: map<nat, Job>, before: seq<Settlement>)
    ensures Rejecting(all, 0, jobs0, before, jobs0, before)
  {
    assert jobs0 - {} == jobs0;
  }

  lemma {:induction false} RunningAppend(workers: seq<nat>, w: nat, jobs: map<nat, Job>)
    ensures Running(workers + [w], jobs) == Running(workers, jobs) + (if w in jobs then [jobs[w].call] else [])
  {
    if workers != [] {
      RunningAppend(workers[1..], w, jobs);
      assert (workers + [w])[1..] == workers[1..] + [w];
    }
  }

  lemma RejectionsAppend(a: seq<nat>, b: seq<nat>)
    ensures Rejections(a + b) == Rejections(a) + Rejections(b)
  {
  }

  lemma RejectingStep(all: seq<nat>, k: nat, jobs0: map<nat, Job>, before: seq<Settlement>, jobs: map<nat, Job>, settled: seq<Settlement>)
    requires k < |all| && Distinct(all) && Rejecting(all, k, jobs0, before, jobs, settled)
    ensures if all[k] in jobs then
              Rejecting(all, k + 1, jobs0, before, jobs - {all[k]}, settled + [Settlement(jobs[all[k]].call, false)])
            else Rejecting(all, k + 1, jobs0, before, jobs, settled)
  {
    hide Running;
    var w := all[k];
    assert all[..k + 1] == all[..k] + [w];
    assert Members(all[..k + 1]) == Members(all[..k]) + {w};
    assert w !in Members(all[..k]);
    RunningAppend(all[..k], w, jobs0);
    RejectionsAppend(Running(all[..k], jobs0), if w in jobs0 then [jobs0[w].call] else []);
  }

  lemma JobsHaveWorkers(p: Pool)
    requires Inv(p)
    ensures Distinct(p.workers) && forall w :: w in p.jobs ==> w in p.workers
  {
  }

  lemma RejectionsOf(calls: seq<nat>, k: nat)
    requires k == 0
    ensures Rejections(calls[..k]) == []
  {
  }

  lemma RejectionsGrow(calls: seq<nat>, k: nat)
    requires k < |calls|
    ensures Rejections(calls[..k + 1]) == Rejections(calls[..k]) + [Settlement(calls[k], false)]
  {
  }
}
