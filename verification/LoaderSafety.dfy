/** What every step of the loader keeps: logs, failure bookkeeping, the in-flight bound and the byte budget. */
module LoaderSafety {
  import opened Vectors
  import opened ArrayModel
  import opened ArrayRead
  import opened Loader
  import L = Limiter

  // --------------------------------------------------------------- invariants

  /** Nothing more may be launched: the run is at its concurrency, has launched every job, or has failed. */
  ghost predicate Saturated(c: RunConfig, run: Run) {
    |run.inFlight| >= c.concurrency || run.index == c.stop || run.failed
  }

  /** Scheduler bookkeeping of one run. */
  ghost predicate RunOk(c: RunConfig, run: Run, phases: seq<Phase>)
    requires c.stop <= |phases|
  {
    && c.start <= run.index <= c.stop
    && (forall j :: InRun(c, j) ==> (phases[j].NotLaunched? <==> j >= run.index))
    && (forall j :: j in run.inFlight <==> InRun(c, j) && j < run.index && !phases[j].Gone?)
    && |run.inFlight| <= c.concurrency
    && (run.pc.Racing? && !run.pc.woken ==> run.inFlight != {} && Saturated(c, run))
    && (run.pc.Draining? || run.pc.Finished? ==> run.index == c.stop || run.failed)
    && (run.pc.Finished? ==> run.inFlight == {})
  }

  predicate LeftWithError(p: Phase) { p.Gone? && IsError(p.outcome) }

  /** `failed` is set exactly when a job left with an error, and that first error is kept. */
  ghost predicate FailureOk(c: RunConfig, run: Run, phases: seq<Phase>)
    requires c.stop <= |phases|
  {
    && (run.failed <==> run.firstError.Some?)
    && (run.failed ==> InRun(c, run.firstError.value) && LeftWithError(phases[run.firstError.value]))
    && (forall j :: InRun(c, j) && LeftWithError(phases[j]) ==> run.failed)
    && (forall j :: InRun(c, j) && HasOutcome(phases[j], Skipped) ==> run.failed)
  }

  ghost predicate Logged(log: seq<Delivery>, j: nat) {
    exists k :: 0 <= k < |log| && log[k].job == j
  }

  /** Each delivered job is in the log exactly once, with genuine bytes. */
  ghost predicate LogOk(cfg: Config, c: RunConfig, log: seq<Delivery>, phases: seq<Phase>)
    requires c.stop <= |phases| == |cfg.jobs|
  {
    && (forall k :: 0 <= k < |log| ==>
          && InRun(c, log[k].job) && HasOutcome(phases[log[k].job], Delivered)
          && GenuineFor(c.arr, cfg.store, cfg.jobs[log[k].job], log[k].chunk))
    && (forall k, l :: 0 <= k < l < |log| ==> log[k].job != log[l].job)
    && (forall j :: InRun(c, j) && HasOutcome(phases[j], Delivered) ==> Logged(log, j))
  }

  predicate FoundMissing(p: Phase) { HasOutcome(p, Missing) || HasOutcome(p, StrictMissing) }

  /** Each missing job is reported exactly once, and its key is absent from the store. */
  ghost predicate MissingOk(cfg: Config, c: RunConfig, missing: seq<nat>, phases: seq<Phase>)
    requires c.stop <= |phases| == |cfg.jobs|
  {
    && (forall k :: 0 <= k < |missing| ==>
          InRun(c, missing[k]) && FoundMissing(phases[missing[k]]) && cfg.jobs[missing[k]].key !in cfg.store)
    && (forall k, l :: 0 <= k < l < |missing| ==> missing[k] != missing[l])
    && (forall j :: InRun(c, j) && FoundMissing(phases[j]) ==> j in missing)
    && (forall j :: InRun(c, j) && HasOutcome(phases[j], Missing) ==> !c.strict)
    && (forall j :: InRun(c, j) && HasOutcome(phases[j], StrictMissing) ==> c.strict)
  }

  ghost predicate RunInv(cfg: Config, c: RunConfig, run: Run, phases: seq<Phase>)
    requires c.stop <= |phases| == |cfg.jobs|
  {
    RunOk(c, run, phases) && FailureOk(c, run, phases)
    && LogOk(cfg, c, run.log, phases) && MissingOk(cfg, c, run.missing, phases)
  }

  ghost predicate RunsInv(cfg: Config, s: State)
    requires Sized(cfg, s)
  {
    forall r :: 0 <= r < |s.runs| ==> RunInv(cfg, cfg.runs[r], s.runs[r], s.phases)
  }

  /** The bytes a job reserves: those of its byte range, or the peak of a whole chunk, at most the budget. */
  ghost function Reserved(cfg: Config, j: nat, capacity: nat): nat
    requires ValidConfig(cfg) && j < |cfg.jobs|
  {
    var asked := if cfg.jobs[j].byteRange.Some? then cfg.jobs[j].byteRange.value.length else cfg.runs[cfg.owner[j]].peakPerChunk;
    if asked <= capacity then asked else capacity
  }

  lemma ClampIsReserved(cfg: Config, j: nat, capacity: nat)
    requires ValidConfig(cfg) && j < |cfg.jobs|
    ensures L.Clamp(CostOf(cfg, j), capacity) == Reserved(cfg, j, capacity) <= capacity
  {
  }

  ghost function HeldBytes(cfg: Config, j: nat, p: Phase, capacity: nat): nat
    requires ValidConfig(cfg) && j < |cfg.jobs|
  {
    if Holding(p) then Reserved(cfg, j, capacity) else 0
  }

  ghost function HeldBy(cfg: Config, phases: seq<Phase>, capacity: nat): (held: seq<nat>)
    requires ValidConfig(cfg) && |phases| == |cfg.jobs|
    ensures |held| == |phases|
  {
    seq(|phases|, j requires 0 <= j < |phases| => HeldBytes(cfg, j, phases[j], capacity))
  }

  ghost predicate QueueOk(cfg: Config, phases: seq<Phase>, ws: seq<L.Waiter>, capacity: nat)
    requires ValidConfig(cfg) && |phases| == |cfg.jobs|
  {
    && (forall k :: 0 <= k < |ws| ==> ws[k].id < |phases| && phases[ws[k].id].Waiting?)
    && (forall k :: 0 <= k < |ws| ==> ws[k].cost == Reserved(cfg, ws[k].id, capacity))
    && (forall k, l :: 0 <= k < l < |ws| ==> ws[k].id != ws[l].id)
    && (forall j :: 0 <= j < |phases| && phases[j].Waiting? ==> j in L.Ids(ws))
  }

  /** The bytes free and the bytes held by jobs add up; the queue is exactly the waiting jobs. */
  ghost predicate BudgetOk(cfg: Config, phases: seq<Phase>, b: L.Budget)
    requires ValidConfig(cfg) && |phases| == |cfg.jobs|
  {
    && L.Settled(b)
    && b.available + Sum(HeldBy(cfg, phases, b.capacity)) == b.capacity
    && QueueOk(cfg, phases, b.waiters, b.capacity)
  }

  /** Every cached chunk is what the store holds, decoded. */
  ghost predicate CacheOk(cfg: Config, cache: map<string, Bytes>) {
    forall key :: key in cache && key in cfg.codecs ==>
      key in cfg.store && cache[key] == DecodeRaw(cfg.codecs[key], cfg.store[key])
  }

  ghost predicate Inv(cfg: Config, s: State) {
    Sized(cfg, s) && RunsInv(cfg, s) && BudgetOk(cfg, s.phases, s.budget) && CacheOk(cfg, s.cache) && FetchedExists(cfg, s)
  }

  // -------------------------------------------------------- frames over phases

  /** Phases that the per-run invariants cannot tell apart. */
  ghost predicate SameView(p: Phase, q: Phase) {
    p == q || (Active(p) && Active(q))
  }

  ghost predicate SameViews(c: RunConfig, before: seq<Phase>, after: seq<Phase>)
    requires c.stop <= |before| == |after|
  {
    forall j :: InRun(c, j) ==> SameView(before[j], after[j])
  }

  lemma RunOkFrame(c: RunConfig, run: Run, before: seq<Phase>, after: seq<Phase>)
    requires c.stop <= |before| == |after| && RunOk(c, run, before) && SameViews(c, before, after)
    ensures RunOk(c, run, after)
  {
  }

  lemma FailureFrame(c: RunConfig, run: Run, before: seq<Phase>, after: seq<Phase>)
    requires c.stop <= |before| == |after| && FailureOk(c, run, before) && SameViews(c, before, after)
    ensures FailureOk(c, run, after)
  {
  }

  lemma LogFrame(cfg: Config, c: RunConfig, log: seq<Delivery>, before: seq<Phase>, after: seq<Phase>)
    requires c.stop <= |before| == |after| == |cfg.jobs| && LogOk(cfg, c, log, before) && SameViews(c, before, after)
    ensures LogOk(cfg, c, log, after)
  {
    hide GenuineFor, Logged;
  }

  lemma MissingFrame(cfg: Config, c: RunConfig, missing: seq<nat>, before: seq<Phase>, after: seq<Phase>)
    requires c.stop <= |before| == |after| == |cfg.jobs| && MissingOk(cfg, c, missing, before) && SameViews(c, before, after)
    ensures MissingOk(cfg, c, missing, after)
  {
  }

  lemma RunFrame(cfg: Config, c: RunConfig, run: Run, before: seq<Phase>, after: seq<Phase>)
    requires c.stop <= |before| == |after| == |cfg.jobs| && RunInv(cfg, c, run, before) && SameViews(c, before, after)
    ensures RunInv(cfg, c, run, after)
  {
    hide RunOk, FailureOk, LogOk, MissingOk, SameViews;
    RunOkFrame(c, run, before, after);
    FailureFrame(c, run, before, after);
    LogFrame(cfg, c, run.log, before, after);
    MissingFrame(cfg, c, run.missing, before, after);
  }

  lemma OtherRunsFrame(cfg: Config, s: State, t: State, r: nat)
    requires Sized(cfg, s) && Sized(cfg, t) && RunsInv(cfg, s) && r < |s.runs|
    requires t.runs == s.runs[r := t.runs[r]]
    requires forall j :: 0 <= j < |s.phases| && cfg.owner[j] != r ==> SameView(s.phases[j], t.phases[j])
    requires RunInv(cfg, cfg.runs[r], t.runs[r], t.phases)
    ensures RunsInv(cfg, t)
  {
    hide RunInv, SameView;
    forall q | 0 <= q < |t.runs| ensures RunInv(cfg, cfg.runs[q], t.runs[q], t.phases) {
      if q != r {
        RunFrame(cfg, cfg.runs[q], s.runs[q], s.phases, t.phases);
      }
    }
  }

  lemma AllRunsFrame(cfg: Config, s: State, t: State)
    requires Sized(cfg, s) && Sized(cfg, t) && RunsInv(cfg, s) && t.runs == s.runs
    requires forall j :: 0 <= j < |s.phases| ==> SameView(s.phases[j], t.phases[j])
    ensures RunsInv(cfg, t)
  {
    hide RunInv, SameView;
    forall q | 0 <= q < |t.runs| ensures RunInv(cfg, cfg.runs[q], t.runs[q], t.phases) {
      RunFrame(cfg, cfg.runs[q], s.runs[q], s.phases, t.phases);
    }
  }

  // ------------------------------------------- one job moves within its run

  lemma LogAppend(cfg: Config, c: RunConfig, log: seq<Delivery>, phases: seq<Phase>, j: nat, chunk: LoadedChunk)
    requires c.stop <= |phases| == |cfg.jobs| && LogOk(cfg, c, log, phases)
    requires InRun(c, j) && !HasOutcome(phases[j], Delivered) && GenuineFor(c.arr, cfg.store, cfg.jobs[j], chunk)
    ensures LogOk(cfg, c, log + [Delivery(j, chunk)], phases[j := Ended(Delivered)])
  {
    hide GenuineFor, Logged;
    var longer := log + [Delivery(j, chunk)];
    forall i | InRun(c, i) && HasOutcome(phases[j := Ended(Delivered)][i], Delivered) ensures Logged(longer, i) {
      LoggedGrows(log, Delivery(j, chunk), i);
    }
  }

  lemma LoggedGrows(log: seq<Delivery>, d: Delivery, i: nat)
    ensures Logged(log + [d], d.job)
    ensures Logged(log, i) ==> Logged(log + [d], i)
  {
    assert (log + [d])[|log|] == d;
    if Logged(log, i) {
      var k :| 0 <= k < |log| && log[k].job == i;
      assert (log + [d])[k] == log[k];
    }
  }

  lemma LogKeep(cfg: Config, c: RunConfig, log: seq<Delivery>, phases: seq<Phase>, j: nat, p: Phase)
    requires c.stop <= |phases| == |cfg.jobs| && LogOk(cfg, c, log, phases) && j < |phases|
    requires HasOutcome(phases[j], Delivered) <==> HasOutcome(p, Delivered)
    ensures LogOk(cfg, c, log, phases[j := p])
  {
    hide GenuineFor, Logged;
  }

  lemma MissingKeep(cfg: Config, c: RunConfig, missing: seq<nat>, phases: seq<Phase>, j: nat, p: Phase)
    requires c.stop <= |phases| == |cfg.jobs| && MissingOk(cfg, c, missing, phases) && j < |phases|
    requires HasOutcome(phases[j], Missing) <==> HasOutcome(p, Missing)
    requires HasOutcome(phases[j], StrictMissing) <==> HasOutcome(p, StrictMissing)
    ensures MissingOk(cfg, c, missing, phases[j := p])
  {
  }

  lemma MissingAppend(cfg: Config, c: RunConfig, missing: seq<nat>, phases: seq<Phase>, j: nat, o: Outcome)
    requires c.stop <= |phases| == |cfg.jobs| && MissingOk(cfg, c, missing, phases)
    requires InRun(c, j) && !FoundMissing(phases[j]) && cfg.jobs[j].key !in cfg.store
    requires o == if c.strict then StrictMissing else Missing
    ensures MissingOk(cfg, c, missing + [j], phases[j := Ended(o)])
  {
  }

  lemma FailureKeep(c: RunConfig, run: Run, phases: seq<Phase>, j: nat, p: Phase)
    requires c.stop <= |phases| && FailureOk(c, run, phases) && j < |phases|
    requires !phases[j].Gone? && (LeftWithError(p) ==> run.failed) && (HasOutcome(p, Skipped) ==> run.failed)
    ensures FailureOk(c, run, phases[j := p])
  {
  }

  /** An active job ends: only its outcome changes. */
  lemma RunOkKeep(c: RunConfig, run: Run, phases: seq<Phase>, j: nat, p: Phase)
    requires c.stop <= |phases| && RunOk(c, run, phases) && j < |phases|
    requires (phases[j].NotLaunched? <==> p.NotLaunched?) && (phases[j].Gone? <==> p.Gone?)
    ensures RunOk(c, run, phases[j := p])
  {
  }

  /** Launching keeps the in-flight bound. */
  lemma RunOkLaunch(c: RunConfig, run: Run, phases: seq<Phase>, p: Phase)
    requires c.stop <= |phases| && RunOk(c, run, phases) && run.pc.Launching?
    requires run.index < c.stop && |run.inFlight| < c.concurrency && !p.NotLaunched? && !p.Gone?
    ensures RunOk(c, run.(index := run.index + 1, inFlight := run.inFlight + {run.index}), phases[run.index := p])
  {
  }

  lemma RunOkGone(c: RunConfig, run: Run, phases: seq<Phase>, j: nat, o: Outcome)
    requires c.stop <= |phases| && RunOk(c, run, phases) && InRun(c, j) && phases[j].Ended?
    ensures RunOk(c, AfterCallback(run, j, o), phases[j := Gone(o)])
  {
    assert j in run.inFlight;
  }

  lemma FailureGone(c: RunConfig, run: Run, phases: seq<Phase>, j: nat)
    requires c.stop <= |phases| && FailureOk(c, run, phases) && InRun(c, j) && phases[j].Ended?
    ensures FailureOk(c, AfterCallback(run, j, phases[j].outcome), phases[j := Gone(phases[j].outcome)])
  {
  }

  // ----------------------------------------------- the runs after each step

  /** Scheduler steps that only move the program counter. */
  lemma PcStepKeepsRun(cfg: Config, c: RunConfig, run: Run, phases: seq<Phase>, pc: Pc)
    requires c.stop <= |phases| == |cfg.jobs| && RunInv(cfg, c, run, phases)
    requires pc.Racing? && !pc.woken ==> run.inFlight != {} && Saturated(c, run)
    requires pc.Draining? || pc.Finished? ==> run.index == c.stop || run.failed
    requires pc.Finished? ==> run.inFlight == {}
    ensures RunInv(cfg, c, run.(pc := pc), phases)
  {
    hide LogOk, MissingOk;
  }

  lemma MissKeepsRun(cfg: Config, c: RunConfig, run: Run, phases: seq<Phase>, p: Phase)
    requires c.stop <= |phases| == |cfg.jobs| && RunInv(cfg, c, run, phases) && run.pc.Launching?
    requires run.index < c.stop && |run.inFlight| < c.concurrency && !run.failed && Active(p)
    ensures RunInv(cfg, c, run.(index := run.index + 1, inFlight := run.inFlight + {run.index}), phases[run.index := p])
  {
    hide RunOk, LogOk, MissingOk, FailureOk;
    var j := run.index;
    FirstUnlaunched(c, run, phases);
    RunOkLaunch(c, run, phases, p);
    FailureKeep(c, run, phases, j, p);
    FailureIgnores(c, run, run.(index := run.index + 1, inFlight := run.inFlight + {run.index}), phases[j := p]);
    LogKeep(cfg, c, run.log, phases, j, p);
    MissingKeep(cfg, c, run.missing, phases, j, p);
  }

  lemma FailureIgnores(c: RunConfig, run: Run, other: Run, phases: seq<Phase>)
    requires c.stop <= |phases| && FailureOk(c, run, phases) && other.failed == run.failed && other.firstError == run.firstError
    ensures FailureOk(c, other, phases)
  {
  }

  lemma FirstUnlaunched(c: RunConfig, run: Run, phases: seq<Phase>)
    requires c.stop <= |phases| && RunOk(c, run, phases) && run.index < c.stop
    ensures phases[run.index].NotLaunched?
  {
  }

  lemma RunOkIgnores(c: RunConfig, run: Run, phases: seq<Phase>, log: seq<Delivery>, missing: seq<nat>)
    requires c.stop <= |phases| && RunOk(c, run, phases)
    ensures RunOk(c, run.(log := log, missing := missing), phases)
  {
  }

  lemma HitKeepsRun(cfg: Config, c: RunConfig, run: Run, phases: seq<Phase>, chunk: LoadedChunk)
    requires c.stop <= |phases| == |cfg.jobs| && RunInv(cfg, c, run, phases) && run.pc.Launching?
    requires run.index < c.stop && |run.inFlight| < c.concurrency && !run.failed
    requires GenuineFor(c.arr, cfg.store, cfg.jobs[run.index], chunk)
    ensures var launched := run.(index := run.index + 1, inFlight := run.inFlight + {run.index});
            RunInv(cfg, c, Deliver(launched, run.index, chunk), phases[run.index := Ended(Delivered)])
  {
    hide RunOk, LogOk, MissingOk, FailureOk, GenuineFor;
    var j, p := run.index, Ended(Delivered);
    var launched := run.(index := run.index + 1, inFlight := run.inFlight + {run.index});
    FirstUnlaunched(c, run, phases);
    RunOkLaunch(c, run, phases, p);
    RunOkIgnores(c, launched, phases[j := p], run.log + [Delivery(j, chunk)], run.missing);
    FailureKeep(c, run, phases, j, p);
    FailureIgnores(c, run, Deliver(launched, j, chunk), phases[j := p]);
    LogAppend(cfg, c, run.log, phases, j, chunk);
    MissingKeep(cfg, c, run.missing, phases, j, p);
  }

  /** An active job ends without a delivery: failed, or skipped after a failure. */
  lemma AbortKeepsRun(cfg: Config, c: RunConfig, run: Run, phases: seq<Phase>, j: nat, o: Outcome)
    requires c.stop <= |phases| == |cfg.jobs| && RunInv(cfg, c, run, phases)
    requires InRun(c, j) && Active(phases[j]) && (o == Failed || (o == Skipped && run.failed))
    ensures RunInv(cfg, c, run, phases[j := Ended(o)])
  {
    hide RunOk, LogOk, MissingOk, FailureOk;
    RunOkKeep(c, run, phases, j, Ended(o));
    FailureKeep(c, run, phases, j, Ended(o));
    LogKeep(cfg, c, run.log, phases, j, Ended(o));
    MissingKeep(cfg, c, run.missing, phases, j, Ended(o));
  }

  lemma DeliveryKeepsRun(cfg: Config, c: RunConfig, run: Run, phases: seq<Phase>, j: nat, chunk: LoadedChunk)
    requires c.stop <= |phases| == |cfg.jobs| && RunInv(cfg, c, run, phases)
    requires InRun(c, j) && Active(phases[j]) && GenuineFor(c.arr, cfg.store, cfg.jobs[j], chunk)
    ensures RunInv(cfg, c, Deliver(run, j, chunk), phases[j := Ended(Delivered)])
  {
    hide RunOk, LogOk, MissingOk, FailureOk, GenuineFor;
    var p := Ended(Delivered);
    RunOkKeep(c, run, phases, j, p);
    RunOkIgnores(c, run, phases[j := p], run.log + [Delivery(j, chunk)], run.missing);
    FailureKeep(c, run, phases, j, p);
    FailureIgnores(c, run, Deliver(run, j, chunk), phases[j := p]);
    LogAppend(cfg, c, run.log, phases, j, chunk);
    MissingKeep(cfg, c, run.missing, phases, j, p);
  }

  lemma MissingKeepsRun(cfg: Config, c: RunConfig, run: Run, phases: seq<Phase>, j: nat, o: Outcome)
    requires c.stop <= |phases| == |cfg.jobs| && RunInv(cfg, c, run, phases)
    requires InRun(c, j) && Active(phases[j]) && cfg.jobs[j].key !in cfg.store
    requires o == if c.strict then StrictMissing else Missing
    ensures RunInv(cfg, c, ReportMissing(run, j), phases[j := Ended(o)])
  {
    hide RunOk, LogOk, MissingOk, FailureOk;
    RunOkKeep(c, run, phases, j, Ended(o));
    RunOkIgnores(c, run, phases[j := Ended(o)], run.log, run.missing + [j]);
    FailureKeep(c, run, phases, j, Ended(o));
    FailureIgnores(c, run, ReportMissing(run, j), phases[j := Ended(o)]);
    LogKeep(cfg, c, run.log, phases, j, Ended(o));
    MissingAppend(cfg, c, run.missing, phases, j, o);
  }

  lemma CallbackKeepsRun(cfg: Config, c: RunConfig, run: Run, phases: seq<Phase>, j: nat)
    requires c.stop <= |phases| == |cfg.jobs| && RunInv(cfg, c, run, phases)
    requires InRun(c, j) && phases[j].Ended?
    ensures RunInv(cfg, c, AfterCallback(run, j, phases[j].outcome), phases[j := Gone(phases[j].outcome)])
  {
    hide RunOk, LogOk, MissingOk, FailureOk;
    var o := phases[j].outcome;
    RunOkGone(c, run, phases, j, o);
    FailureGone(c, run, phases, j);
    LogKeep(cfg, c, run.log, phases, j, Gone(o));
    MissingKeep(cfg, c, run.missing, phases, j, Gone(o));
  }

  // -------------------------------------------------- the budget at each step

  lemma HeldByUpdate(cfg: Config, phases: seq<Phase>, j: nat, p: Phase, capacity: nat)
    requires ValidConfig(cfg) && |phases| == |cfg.jobs| && j < |phases|
    ensures HeldBy(cfg, phases[j := p], capacity) == HeldBy(cfg, phases, capacity)[j := HeldBytes(cfg, j, p, capacity)]
    ensures Sum(HeldBy(cfg, phases[j := p], capacity)) + HeldBytes(cfg, j, phases[j], capacity)
         == Sum(HeldBy(cfg, phases, capacity)) + HeldBytes(cfg, j, p, capacity)
  {
    hide HeldBytes, ValidConfig, Sum;
    SumUpdate(HeldBy(cfg, phases, capacity), j, HeldBytes(cfg, j, p, capacity));
  }

  lemma QueueKeep(cfg: Config, phases: seq<Phase>, j: nat, p: Phase, ws: seq<L.Waiter>, capacity: nat)
    requires ValidConfig(cfg) && |phases| == |cfg.jobs| && j < |phases| && QueueOk(cfg, phases, ws, capacity)
    requires !phases[j].Waiting? && !p.Waiting?
    ensures QueueOk(cfg, phases[j := p], ws, capacity)
  {
    hide ValidConfig, Reserved, L.Ids;
  }

  /** A job that keeps what it holds leaves the budget alone. */
  lemma PhaseKeepsBudget(cfg: Config, phases: seq<Phase>, j: nat, p: Phase, b: L.Budget)
    requires ValidConfig(cfg) && |phases| == |cfg.jobs| && j < |phases| && BudgetOk(cfg, phases, b)
    requires (Holding(phases[j]) <==> Holding(p)) && !phases[j].Waiting? && !p.Waiting?
    ensures BudgetOk(cfg, phases[j := p], b)
  {
    hide ValidConfig, QueueOk, HeldBy, L.Settled;
    HeldByUpdate(cfg, phases, j, p, b.capacity);
    QueueKeep(cfg, phases, j, p, b.waiters, b.capacity);
  }

  lemma QueueJoin(cfg: Config, phases: seq<Phase>, j: nat, ws: seq<L.Waiter>, capacity: nat)
    requires ValidConfig(cfg) && |phases| == |cfg.jobs| && j < |phases| && QueueOk(cfg, phases, ws, capacity)
    requires phases[j].NotLaunched?
    ensures QueueOk(cfg, phases[j := Waiting], ws + [L.Waiter(j, Reserved(cfg, j, capacity))], capacity)
  {
    hide ValidConfig, Reserved, L.Ids;
    var w := L.Waiter(j, Reserved(cfg, j, capacity));
    L.IdsAppend(ws, [w]);
    assert w.id in L.Ids([w]) by { OneId(w); }
    assert forall k :: 0 <= k < |ws| ==> (ws + [w])[k] == ws[k];
  }

  lemma OneId(w: L.Waiter)
    ensures L.Ids([w]) == [w.id]
  {
  }

  lemma AcquireKeepsBudget(cfg: Config, phases: seq<Phase>, j: nat, b: L.Budget)
    requires ValidConfig(cfg) && |phases| == |cfg.jobs| && j < |phases| && BudgetOk(cfg, phases, b)
    requires phases[j].NotLaunched?
    ensures var a := L.Acquired(b, j, CostOf(cfg, j));
            BudgetOk(cfg, phases[j := if a.1 then Ready else Waiting], a.0)
  {
    hide ValidConfig, QueueOk, HeldBy, L.Clamp, Reserved, CostOf;
    var a := L.Acquired(b, j, CostOf(cfg, j));
    var p := if a.1 then Ready else Waiting;
    ClampIsReserved(cfg, j, b.capacity);
    HeldByUpdate(cfg, phases, j, p, b.capacity);
    if a.1 {
      QueueKeep(cfg, phases, j, p, b.waiters, b.capacity);
    } else {
      QueueJoin(cfg, phases, j, b.waiters, b.capacity);
      L.CostsSplit(a.0.waiters, b.waiters, [L.Waiter(j, Reserved(cfg, j, b.capacity))], b.capacity);
    }
  }

  lemma WakeFirst(phases: seq<Phase>, ws: seq<L.Waiter>)
    requires ws != [] && ws[0].id < |phases|
    ensures Wake(phases, ws) == Wake(phases[ws[0].id := Ready], ws[1..])
  {
    assert ws == [ws[0]] + ws[1..];
    L.IdsAppend([ws[0]], ws[1..]);
    OneId(ws[0]);
  }

  ghost predicate WaitersMatch(cfg: Config, phases: seq<Phase>, ws: seq<L.Waiter>, capacity: nat)
    requires ValidConfig(cfg) && |phases| == |cfg.jobs|
  {
    && (forall k :: 0 <= k < |ws| ==> ws[k].id < |phases| && phases[ws[k].id].Waiting?)
    && (forall k :: 0 <= k < |ws| ==> ws[k].cost == Reserved(cfg, ws[k].id, capacity))
    && (forall k, l :: 0 <= k < l < |ws| ==> ws[k].id != ws[l].id)
  }

  lemma MatchTail(cfg: Config, phases: seq<Phase>, ws: seq<L.Waiter>, capacity: nat)
    requires ValidConfig(cfg) && |phases| == |cfg.jobs| && WaitersMatch(cfg, phases, ws, capacity) && ws != []
    ensures WaitersMatch(cfg, phases[ws[0].id := Ready], ws[1..], capacity)
  {
    hide ValidConfig, Reserved;
    var rest := ws[1..];
    assert forall k :: 0 <= k < |rest| ==> rest[k] == ws[k + 1];
  }

  lemma {:induction false} WakeSum(cfg: Config, phases: seq<Phase>, ws: seq<L.Waiter>, capacity: nat)
    requires ValidConfig(cfg) && |phases| == |cfg.jobs| && WaitersMatch(cfg, phases, ws, capacity)
    ensures Sum(HeldBy(cfg, Wake(phases, ws), capacity)) == Sum(HeldBy(cfg, phases, capacity)) + L.Total(ws)
    decreases |ws|
  {
    hide ValidConfig, Reserved, HeldBy, Sum;
    if ws == [] {
      assert L.Ids(ws) == [];
      assert Wake(phases, ws) == phases;
    } else {
      var j := ws[0].id;
      WakeFirst(phases, ws);
      MatchTail(cfg, phases, ws, capacity);
      WakeSum(cfg, phases[j := Ready], ws[1..], capacity);
      HeldByUpdate(cfg, phases, j, Ready, capacity);
    }
  }

  lemma MatchSplit(cfg: Config, phases: seq<Phase>, woken: seq<L.Waiter>, rest: seq<L.Waiter>, capacity: nat)
    requires ValidConfig(cfg) && |phases| == |cfg.jobs| && WaitersMatch(cfg, phases, woken + rest, capacity)
    ensures WaitersMatch(cfg, phases, woken, capacity) && WaitersMatch(cfg, phases, rest, capacity)
    ensures forall k, l :: 0 <= k < |woken| && 0 <= l < |rest| ==> woken[k].id != rest[l].id
  {
    hide ValidConfig, Reserved;
    var ws := woken + rest;
    assert forall k :: 0 <= k < |woken| ==> woken[k] == ws[k];
    assert forall k :: 0 <= k < |rest| ==> rest[k] == ws[|woken| + k];
  }

  lemma WokenAre(phases: seq<Phase>, woken: seq<L.Waiter>, j: nat)
    requires j < |phases|
    ensures (forall k :: 0 <= k < |woken| ==> woken[k].id != j) ==> Wake(phases, woken)[j] == phases[j]
    ensures j in L.Ids(woken) ==> Wake(phases, woken)[j] == Ready
    ensures Wake(phases, woken)[j] == Ready || Wake(phases, woken)[j] == phases[j]
  {
    if j in L.Ids(woken) {
      var k :| 0 <= k < |woken| && L.Ids(woken)[k] == j;
      assert woken[k].id == j;
    }
  }

  lemma QueueSplit(cfg: Config, phases: seq<Phase>, ws: seq<L.Waiter>, woken: seq<L.Waiter>, rest: seq<L.Waiter>, capacity: nat)
    requires ValidConfig(cfg) && |phases| == |cfg.jobs| && QueueOk(cfg, phases, ws, capacity) && ws == woken + rest
    ensures WaitersMatch(cfg, phases, woken, capacity)
    ensures QueueOk(cfg, Wake(phases, woken), rest, capacity)
  {
    hide ValidConfig, Reserved, Wake, L.Ids;
    MatchSplit(cfg, phases, woken, rest, capacity);
    L.IdsAppend(woken, rest);
    forall k | 0 <= k < |rest| ensures Wake(phases, woken)[rest[k].id].Waiting? {
      WokenAre(phases, woken, rest[k].id);
    }
    forall j | 0 <= j < |phases| && Wake(phases, woken)[j].Waiting? ensures j in L.Ids(rest) {
      WokenAre(phases, woken, j);
    }
  }

  lemma WakeViews(cfg: Config, phases: seq<Phase>, woken: seq<L.Waiter>, capacity: nat)
    requires ValidConfig(cfg) && |phases| == |cfg.jobs| && WaitersMatch(cfg, phases, woken, capacity)
    ensures forall j :: 0 <= j < |phases| ==> SameView(phases[j], Wake(phases, woken)[j])
  {
    hide ValidConfig, Reserved;
    forall j | 0 <= j < |phases| && j in L.Ids(woken) ensures phases[j].Waiting? {
      var k :| 0 <= k < |woken| && L.Ids(woken)[k] == j;
      assert woken[k].id == j;
    }
  }

  /** `finally`: the bytes go back, and the jobs this wakes hold theirs. */
  lemma ReleaseKeepsBudget(cfg: Config, phases: seq<Phase>, j: nat, o: Outcome, b: L.Budget)
    requires ValidConfig(cfg) && |phases| == |cfg.jobs| && j < |phases| && BudgetOk(cfg, phases, b)
    requires Holding(phases[j])
    ensures var r := L.Released(b, CostOf(cfg, j));
            && BudgetOk(cfg, Wake(phases[j := Ended(o)], r.1), r.0)
            && WaitersMatch(cfg, phases[j := Ended(o)], r.1, b.capacity)
  {
    hide ValidConfig, QueueOk, HeldBy, L.Clamp, CostOf, Reserved, Wake, WaitersMatch, L.Total, L.CostsWithin, L.Pump;
    var ended := phases[j := Ended(o)];
    var c := Reserved(cfg, j, b.capacity);
    ClampIsReserved(cfg, j, b.capacity);
    HeldByUpdate(cfg, phases, j, Ended(o), b.capacity);
    SumAtLeast(HeldBy(cfg, phases, b.capacity), j);
    HeldByAt(cfg, phases, j, b.capacity);
    QueueKeep(cfg, phases, j, Ended(o), b.waiters, b.capacity);
    var raised := b.(available := b.available + c);
    var r := L.Pump(raised);
    assert L.Released(b, CostOf(cfg, j)) == r;
    L.PumpWakesLongestPrefix(raised);
    QueueSplit(cfg, ended, b.waiters, r.1, r.0.waiters, b.capacity);
    WakeSum(cfg, ended, r.1, b.capacity);
    L.CostsSplit(b.waiters, r.1, r.0.waiters, b.capacity);
  }

  lemma HeldByAt(cfg: Config, phases: seq<Phase>, j: nat, capacity: nat)
    requires ValidConfig(cfg) && |phases| == |cfg.jobs| && j < |phases|
    ensures HeldBy(cfg, phases, capacity)[j] == HeldBytes(cfg, j, phases[j], capacity)
  {
  }
}
