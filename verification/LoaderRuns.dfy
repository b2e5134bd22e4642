/**
 The loader over whole runs: every step keeps the invariant and lowers a measure, every
 unfinished state can step, and what a finished run has delivered is a complete load.
 */
module LoaderRuns {
  import opened Vectors
  import opened ChunkIndexing
  import opened ArrayModel
  import opened ChunkOverlap
  import opened ArrayRead
  import opened Loader
  import opened LoaderSafety
  import L = Limiter

  // ------------------------------------------------ every step keeps the invariant

  lemma SizedParts(cfg: Config, s: State, j: nat)
    requires Sized(cfg, s) && j < |cfg.jobs|
    ensures |cfg.owner| == |cfg.jobs| && |s.runs| == |cfg.runs|
    ensures cfg.owner[j] < |s.runs| && OwnerOf(cfg, j) == cfg.runs[cfg.owner[j]]
    ensures InRun(OwnerOf(cfg, j), j) && OwnerOf(cfg, j).stop <= |s.phases|
    ensures forall i :: 0 <= i < |cfg.jobs| && cfg.owner[i] != cfg.owner[j] ==> i != j
  {
  }

  lemma RunOf(cfg: Config, s: State, r: nat)
    requires Sized(cfg, s) && RunsInv(cfg, s) && r < |s.runs|
    ensures cfg.runs[r].stop <= |s.phases| && RunInv(cfg, cfg.runs[r], s.runs[r], s.phases)
    ensures forall j :: InRun(cfg.runs[r], j) ==> 0 <= j < |cfg.jobs| && cfg.owner[j] == r
  {
  }

  /** A job moves and keeps its reservation, or has none before and after. */
  lemma MoveKeepsInv(cfg: Config, s: State, run: Run, j: nat, p: Phase, b: L.Budget)
    requires Inv(cfg, s) && j < |cfg.jobs| && RunInv(cfg, OwnerOf(cfg, j), run, s.phases[j := p])
    requires BudgetOk(cfg, s.phases[j := p], b) && (p.Decoding? ==> cfg.jobs[j].key in cfg.store)
    ensures Inv(cfg, State(s.runs[cfg.owner[j] := run], s.phases[j := p], b, s.cache))
  {
    hide RunsInv, RunInv, BudgetOk, CacheOk, ValidConfig;
    SizedParts(cfg, s, j);
    var t := State(s.runs[cfg.owner[j] := run], s.phases[j := p], b, s.cache);
    OtherRunsFrame(cfg, s, t, cfg.owner[j]);
  }

  /** A scheduler step that moves no job. */
  lemma PcKeepsInv(cfg: Config, s: State, r: nat, pc: Pc)
    requires Inv(cfg, s) && r < |s.runs|
    requires pc.Racing? && !pc.woken ==> s.runs[r].inFlight != {} && Saturated(cfg.runs[r], s.runs[r])
    requires pc.Draining? || pc.Finished? ==> s.runs[r].index == cfg.runs[r].stop || s.runs[r].failed
    requires pc.Finished? ==> s.runs[r].inFlight == {}
    ensures Inv(cfg, SetRun(s, r, s.runs[r].(pc := pc)))
  {
    hide RunsInv, RunInv, BudgetOk, CacheOk;
    RunOf(cfg, s, r);
    PcStepKeepsRun(cfg, cfg.runs[r], s.runs[r], s.phases, pc);
    OtherRunsFrame(cfg, s, SetRun(s, r, s.runs[r].(pc := pc)), r);
  }

  /** A job ends and its `finally` returns the reservation. */
  lemma EndKeepsInv(cfg: Config, s: State, run: Run, cache: map<string, Bytes>, j: nat, o: Outcome)
    requires Inv(cfg, s) && j < |cfg.jobs| && Holding(s.phases[j]) && CacheOk(cfg, cache)
    requires RunInv(cfg, OwnerOf(cfg, j), run, s.phases[j := Ended(o)])
    ensures Inv(cfg, EndTask(cfg, State(s.runs[cfg.owner[j] := run], s.phases, s.budget, cache), j, o))
  {
    hide RunsInv, RunInv, BudgetOk, CacheOk, ValidConfig, L.Released, WaitersMatch;
    SizedParts(cfg, s, j);
    var r := cfg.owner[j];
    var mid := State(s.runs[r := run], s.phases[j := Ended(o)], s.budget, cache);
    OtherRunsFrame(cfg, s, mid, r);
    var t := EndTask(cfg, State(s.runs[r := run], s.phases, s.budget, cache), j, o);
    ReleaseKeepsBudget(cfg, s.phases, j, o, s.budget);
    WakeViews(cfg, mid.phases, L.Released(s.budget, CostOf(cfg, j)).1, s.budget.capacity);
    AllRunsFrame(cfg, mid, t);
  }

  lemma SameRuns(s: State, r: nat)
    requires r < |s.runs|
    ensures s.runs[r := s.runs[r]] == s.runs
    ensures State(s.runs[r := s.runs[r]], s.phases, s.budget, s.cache) == s
  {
  }

  lemma AbortKeepsInv(cfg: Config, s: State, j: nat, o: Outcome)
    requires Inv(cfg, s) && j < |cfg.jobs| && Holding(s.phases[j])
    requires o == Failed || (o == Skipped && s.runs[cfg.owner[j]].failed)
    ensures Inv(cfg, EndTask(cfg, s, j, o))
  {
    hide RunsInv, RunInv, BudgetOk, CacheOk, ValidConfig, EndTask;
    SizedParts(cfg, s, j);
    var r := cfg.owner[j];
    RunOf(cfg, s, r);
    AbortKeepsRun(cfg, OwnerOf(cfg, j), s.runs[r], s.phases, j, o);
    SameRuns(s, r);
    EndKeepsInv(cfg, s, s.runs[r], s.cache, j, o);
  }

  lemma DeliveryKeepsInv(cfg: Config, s: State, cache: map<string, Bytes>, j: nat, chunk: LoadedChunk)
    requires Inv(cfg, s) && j < |cfg.jobs| && Holding(s.phases[j]) && CacheOk(cfg, cache)
    requires GenuineFor(OwnerOf(cfg, j).arr, cfg.store, cfg.jobs[j], chunk)
    ensures Inv(cfg, ApplyDelivery(cfg, s.(cache := cache), j, chunk))
  {
    hide RunsInv, RunInv, BudgetOk, CacheOk, ValidConfig, EndTask, GenuineFor;
    SizedParts(cfg, s, j);
    var r := cfg.owner[j];
    RunOf(cfg, s, r);
    DeliveryKeepsRun(cfg, OwnerOf(cfg, j), s.runs[r], s.phases, j, chunk);
    EndKeepsInv(cfg, s, Deliver(s.runs[r], j, chunk), cache, j, Delivered);
  }

  lemma MissingKeepsInv(cfg: Config, s: State, j: nat)
    requires Inv(cfg, s) && j < |cfg.jobs| && Holding(s.phases[j]) && cfg.jobs[j].key !in cfg.store
    ensures Inv(cfg, ApplyMissing(cfg, s, j))
  {
    hide RunsInv, RunInv, BudgetOk, CacheOk, ValidConfig, EndTask;
    SizedParts(cfg, s, j);
    var r := cfg.owner[j];
    var o := if cfg.runs[r].strict then StrictMissing else Missing;
    RunOf(cfg, s, r);
    MissingKeepsRun(cfg, OwnerOf(cfg, j), s.runs[r], s.phases, j, o);
    EndKeepsInv(cfg, s, ReportMissing(s.runs[r], j), s.cache, j, o);
  }

  lemma PartialIsGenuine(cfg: Config, j: nat)
    requires ValidConfig(cfg) && j < |cfg.jobs| && cfg.jobs[j].key in cfg.store && cfg.jobs[j].byteRange.Some?
    ensures GenuineFor(OwnerOf(cfg, j).arr, cfg.store, cfg.jobs[j], PartialChunk(cfg, j))
  {
  }

  lemma DecodedIsGenuine(cfg: Config, cache: map<string, Bytes>, j: nat)
    requires ValidConfig(cfg) && j < |cfg.jobs| && CacheOk(cfg, cache)
    ensures cfg.jobs[j].key in cfg.store ==>
              GenuineFor(OwnerOf(cfg, j).arr, cfg.store, cfg.jobs[j], LoadedChunk(cfg.jobs[j].chunkCoord, DecodedBytes(cfg, j), false))
    ensures cfg.jobs[j].key in cfg.store ==> CacheOk(cfg, cache[cfg.jobs[j].key := DecodedBytes(cfg, j)])
    ensures cfg.jobs[j].key in cache ==> cfg.jobs[j].key in cfg.store && cache[cfg.jobs[j].key] == DecodedBytes(cfg, j)
  {
  }

  lemma LaunchKeepsInv(cfg: Config, s: State, r: nat, hit: bool)
    requires Inv(cfg, s) && Enabled(cfg, s, Launch(r, hit))
    ensures Inv(cfg, ApplyLaunch(cfg, s, r, hit))
  {
    hide RunsInv, RunInv, BudgetOk, CacheOk, ValidConfig, GenuineFor, L.Acquired, FetchedExists;
    var run, j := s.runs[r], s.runs[r].index;
    RunOf(cfg, s, r);
    LaunchPhase(cfg, s, r);
    SizedParts(cfg, s, j);
    if hit {
      DecodedIsGenuine(cfg, s.cache, j);
      var chunk := LoadedChunk(cfg.jobs[j].chunkCoord, s.cache[cfg.jobs[j].key], false);
      HitKeepsRun(cfg, cfg.runs[r], run, s.phases, chunk);
      PhaseKeepsBudget(cfg, s.phases, j, Ended(Delivered), s.budget);
      var launched := run.(index := j + 1, inFlight := run.inFlight + {j});
      MoveKeepsInv(cfg, s, Deliver(launched, j, chunk), j, Ended(Delivered), s.budget);
    } else {
      var a := L.Acquired(s.budget, j, CostOf(cfg, j));
      var p := if a.1 then Ready else Waiting;
      MissKeepsRun(cfg, cfg.runs[r], run, s.phases, p);
      AcquireKeepsBudget(cfg, s.phases, j, s.budget);
      MoveKeepsInv(cfg, s, run.(index := j + 1, inFlight := run.inFlight + {j}), j, p, a.0);
    }
  }

  lemma LaunchPhase(cfg: Config, s: State, r: nat)
    requires Sized(cfg, s) && RunsInv(cfg, s) && r < |s.runs| && s.runs[r].index < cfg.runs[r].stop
    ensures s.runs[r].index < |cfg.jobs| && cfg.owner[s.runs[r].index] == r && s.phases[s.runs[r].index].NotLaunched?
  {
    hide LogOk, MissingOk, FailureOk;
    RunOf(cfg, s, r);
  }

  /** A waiting job is granted, or a raw chunk goes to the decoder: the runs cannot tell. */
  lemma ActiveKeepsInv(cfg: Config, s: State, j: nat, p: Phase)
    requires Inv(cfg, s) && j < |cfg.jobs| && Holding(s.phases[j]) && Holding(p)
    requires p.Decoding? ==> cfg.jobs[j].key in cfg.store
    ensures Inv(cfg, SetPhase(s, j, p))
  {
    hide RunsInv, BudgetOk, CacheOk, ValidConfig;
    PhaseKeepsBudget(cfg, s.phases, j, p, s.budget);
    AllRunsFrame(cfg, s, SetPhase(s, j, p));
  }

  lemma CallbackKeepsInv(cfg: Config, s: State, j: nat)
    requires Inv(cfg, s) && j < |cfg.jobs| && s.phases[j].Ended?
    ensures Inv(cfg, ApplyCallback(cfg, s, j))
  {
    hide RunsInv, RunInv, BudgetOk, CacheOk, ValidConfig, FetchedExists;
    SizedParts(cfg, s, j);
    var r, o := cfg.owner[j], s.phases[j].outcome;
    RunOf(cfg, s, r);
    CallbackKeepsRun(cfg, OwnerOf(cfg, j), s.runs[r], s.phases, j);
    PhaseKeepsBudget(cfg, s.phases, j, Gone(o), s.budget);
    MoveKeepsInv(cfg, s, AfterCallback(s.runs[r], j, o), j, Gone(o), s.budget);
  }

  lemma FetchKeepsInv(cfg: Config, s: State, j: nat, ok: bool)
    requires Inv(cfg, s) && Enabled(cfg, s, Fetch(j, ok))
    ensures Inv(cfg, ApplyFetch(cfg, s, j, ok))
  {
    hide RunsInv, BudgetOk, CacheOk, ValidConfig, EndTask, GenuineFor, ApplyMissing, ApplyDelivery, FetchedExists;
    SizedParts(cfg, s, j);
    if !ok {
      AbortKeepsInv(cfg, s, j, Failed);
    } else if s.runs[cfg.owner[j]].failed {
      AbortKeepsInv(cfg, s, j, Skipped);
    } else if cfg.jobs[j].key !in cfg.store {
      MissingKeepsInv(cfg, s, j);
    } else if UsesRange(cfg, j) {
      PartialIsGenuine(cfg, j);
      DeliveryKeepsInv(cfg, s, s.cache, j, PartialChunk(cfg, j));
    } else {
      ActiveKeepsInv(cfg, s, j, Decoding);
    }
  }

  lemma DecodeKeepsInv(cfg: Config, s: State, j: nat, ok: bool)
    requires Inv(cfg, s) && Enabled(cfg, s, Decode(j, ok)) && cfg.jobs[j].key in cfg.store
    ensures Inv(cfg, ApplyDecode(cfg, s, j, ok))
  {
    hide RunsInv, BudgetOk, CacheOk, ValidConfig, EndTask, GenuineFor, ApplyDelivery, FetchedExists;
    SizedParts(cfg, s, j);
    if !ok {
      AbortKeepsInv(cfg, s, j, Failed);
    } else if s.runs[cfg.owner[j]].failed {
      AbortKeepsInv(cfg, s, j, Skipped);
    } else {
      DecodedIsGenuine(cfg, s.cache, j);
      var data := DecodedBytes(cfg, j);
      var cache := if OwnerOf(cfg, j).cached then s.cache[cfg.jobs[j].key := data] else s.cache;
      DeliveryKeepsInv(cfg, s, cache, j, LoadedChunk(cfg.jobs[j].chunkCoord, data, false));
    }
  }

  lemma SchedulerKeepsInv(cfg: Config, s: State, step: Step)
    requires Inv(cfg, s) && Enabled(cfg, s, step) && (step.Begin? || step.Block? || step.Wakeup? || step.Finish?)
    ensures Inv(cfg, Apply(cfg, s, step))
  {
    hide BudgetOk, CacheOk, FetchedExists, LogOk, MissingOk, FailureOk;
    var r := step.run;
    RunOf(cfg, s, r);
    var run := s.runs[r];
    match step {
      case Begin(_) => PcKeepsInv(cfg, s, r, if run.index < cfg.runs[r].stop && !run.failed then Launching else Draining);
      case Block(_) => PcKeepsInv(cfg, s, r, if run.inFlight != {} then Racing(false) else Draining);
      case Wakeup(_) => PcKeepsInv(cfg, s, r, Top);
      case Finish(_) => PcKeepsInv(cfg, s, r, Finished);
    }
  }

  lemma StepKeepsInv(cfg: Config, s: State, step: Step)
    requires Inv(cfg, s) && Enabled(cfg, s, step)
    ensures Inv(cfg, Apply(cfg, s, step))
  {
    hide RunsInv, BudgetOk, CacheOk, ValidConfig, EndTask, ApplyLaunch, ApplyFetch, ApplyDecode, ApplyCallback;
    match step
    case Launch(r, hit) => LaunchKeepsInv(cfg, s, r, hit);
    case Resume(j) =>
      SizedParts(cfg, s, j);
      if s.runs[cfg.owner[j]].failed {
        AbortKeepsInv(cfg, s, j, Skipped);
      } else {
        ActiveKeepsInv(cfg, s, j, Fetching);
      }
    case Fetch(j, ok) => FetchKeepsInv(cfg, s, j, ok);
    case Decode(j, ok) => DecodeKeepsInv(cfg, s, j, ok);
    case Callback(j) => CallbackKeepsInv(cfg, s, j);
    case _ => SchedulerKeepsInv(cfg, s, step);
  }

  lemma FreshRunHolds(cfg: Config, c: RunConfig, phases: seq<Phase>)
    requires c.start <= c.stop <= |phases| == |cfg.jobs|
    requires forall j :: 0 <= j < |phases| ==> phases[j].NotLaunched?
    ensures RunInv(cfg, c, InitialRun(c), phases)
  {
  }

  lemma FreshBudgetHolds(cfg: Config, capacity: int, phases: seq<Phase>)
    requires ValidConfig(cfg) && |phases| == |cfg.jobs|
    requires forall j :: 0 <= j < |phases| ==> phases[j].NotLaunched?
    ensures BudgetOk(cfg, phases, L.NewLedger(capacity).budget)
  {
    hide ValidConfig;
    SumZero(HeldBy(cfg, phases, L.NewLedger(capacity).budget.capacity));
  }

  lemma InitialHolds(cfg: Config, capacity: int, cache: map<string, Bytes>)
    requires ValidConfig(cfg) && CacheOk(cfg, cache)
    ensures Inv(cfg, Initial(cfg, capacity, cache))
  {
    hide RunInv, BudgetOk, CacheOk;
    var s := Initial(cfg, capacity, cache);
    FreshBudgetHolds(cfg, capacity, s.phases);
    forall r | 0 <= r < |s.runs| ensures RunInv(cfg, cfg.runs[r], s.runs[r], s.phases) {
      FreshRunHolds(cfg, cfg.runs[r], s.phases);
    }
  }

  // -------------------------------------------------------------- whole runs

  ghost predicate Executes(cfg: Config, s: State, steps: seq<Step>, t: State)
    requires Inv(cfg, s)
    decreases |steps|
  {
    if steps == [] then s == t
    else
      && Enabled(cfg, s, steps[0])
      && (StepKeepsInv(cfg, s, steps[0]); Executes(cfg, Apply(cfg, s, steps[0]), steps[1..], t))
  }

  /** Every reachable state, whatever the interleaving, satisfies the invariant. */
  lemma {:induction false} RunsKeepInv(cfg: Config, s: State, steps: seq<Step>, t: State)
    requires Inv(cfg, s) && Executes(cfg, s, steps, t)
    ensures Inv(cfg, t)
    decreases |steps|
  {
    hide RunsInv, BudgetOk, CacheOk, Apply, Enabled, FetchedExists, ValidConfig;
    if steps != [] {
      StepKeepsInv(cfg, s, steps[0]);
      RunsKeepInv(cfg, Apply(cfg, s, steps[0]), steps[1..], t);
    }
  }

  /** Some interleaving leads from the start of the runs, with this cache, to `t`. */
  ghost predicate Reaches(cfg: Config, capacity: int, cache: map<string, Bytes>, t: State) {
    && ValidConfig(cfg) && CacheOk(cfg, cache)
    && (InitialHolds(cfg, capacity, cache); exists steps :: Executes(cfg, Initial(cfg, capacity, cache), steps, t))
  }

  /** Every state reached from the start of the runs satisfies the invariant. */
  lemma ReachedSatisfiesInv(cfg: Config, capacity: int, cache: map<string, Bytes>, t: State)
    requires Reaches(cfg, capacity, cache, t)
    ensures Inv(cfg, t)
  {
    hide Inv, Executes;
    InitialHolds(cfg, capacity, cache);
    var steps :| Executes(cfg, Initial(cfg, capacity, cache), steps, t);
    RunsKeepInv(cfg, Initial(cfg, capacity, cache), steps, t);
  }

  // ------------------------------------------------------------- termination

  function Rank(p: Phase): nat {
    match p
    case NotLaunched => 6
    case Waiting => 5
    case Ready => 4
    case Fetching => 3
    case Decoding => 2
    case Ended(_) => 1
    case Gone(_) => 0
  }

  function PcRank(pc: Pc): nat {
    match pc
    case Racing(woken) => if woken then 5 else 2
    case Top => 4
    case Launching => 3
    case Draining => 1
    case Finished => 0
  }

  function Ranks(phases: seq<Phase>): (r: seq<nat>)
    ensures |r| == |phases|
    ensures forall j :: 0 <= j < |phases| ==> r[j] == Rank(phases[j])
  {
    seq(|phases|, j requires 0 <= j < |phases| => Rank(phases[j]))
  }

  function PcRanks(runs: seq<Run>): (r: seq<nat>)
    ensures |r| == |runs|
    ensures forall j :: 0 <= j < |runs| ==> r[j] == PcRank(runs[j].pc)
  {
    seq(|runs|, j requires 0 <= j < |runs| => PcRank(runs[j].pc))
  }

  function Measure(s: State): nat {
    4 * Sum(Ranks(s.phases)) + Sum(PcRanks(s.runs))
  }

  lemma RankUpdate(phases: seq<Phase>, j: nat, p: Phase)
    requires j < |phases|
    ensures Sum(Ranks(phases[j := p])) + Rank(phases[j]) == Sum(Ranks(phases)) + Rank(p)
  {
    hide Rank, Sum;
    SumUpdate(Ranks(phases), j, Rank(p));
    assert Ranks(phases[j := p]) == Ranks(phases)[j := Rank(p)];
  }

  lemma PcRankUpdate(runs: seq<Run>, r: nat, run: Run)
    requires r < |runs|
    ensures Sum(PcRanks(runs[r := run])) + PcRank(runs[r].pc) == Sum(PcRanks(runs)) + PcRank(run.pc)
  {
    hide PcRank, Sum;
    SumUpdate(PcRanks(runs), r, PcRank(run.pc));
    assert PcRanks(runs[r := run]) == PcRanks(runs)[r := PcRank(run.pc)];
  }

  lemma WakeLowersRanks(cfg: Config, phases: seq<Phase>, woken: seq<L.Waiter>, capacity: nat)
    requires ValidConfig(cfg) && |phases| == |cfg.jobs| && WaitersMatch(cfg, phases, woken, capacity)
    ensures Sum(Ranks(Wake(phases, woken))) <= Sum(Ranks(phases))
  {
    hide ValidConfig, Wake, WaitersMatch;
    WakeViews(cfg, phases, woken, capacity);
    forall j | 0 <= j < |phases| ensures Rank(Wake(phases, woken)[j]) <= Rank(phases[j]) {
      WakeRank(cfg, phases, woken, capacity, j);
    }
    SumMonotone(Ranks(Wake(phases, woken)), Ranks(phases));
  }

  lemma WakeRank(cfg: Config, phases: seq<Phase>, woken: seq<L.Waiter>, capacity: nat, j: nat)
    requires ValidConfig(cfg) && |phases| == |cfg.jobs| && WaitersMatch(cfg, phases, woken, capacity) && j < |phases|
    ensures Rank(Wake(phases, woken)[j]) <= Rank(phases[j])
  {
    hide ValidConfig, Reserved;
    WokenAre(phases, woken, j);
    if j in L.Ids(woken) {
      var k :| 0 <= k < |woken| && L.Ids(woken)[k] == j;
      assert woken[k].id == j;
    }
  }

  lemma EndLowersMeasure(cfg: Config, s: State, run: Run, cache: map<string, Bytes>, j: nat, o: Outcome)
    requires Inv(cfg, s) && j < |cfg.jobs| && Holding(s.phases[j]) && cfg.owner[j] < |s.runs|
    requires run.pc == s.runs[cfg.owner[j]].pc
    ensures Measure(EndTask(cfg, State(s.runs[cfg.owner[j] := run], s.phases, s.budget, cache), j, o)) < Measure(s)
  {
    hide RunsInv, BudgetOk, CacheOk, ValidConfig, L.Released, WaitersMatch, Sum, Wake;
    SizedParts(cfg, s, j);
    var ended := s.phases[j := Ended(o)];
    ReleaseKeepsBudget(cfg, s.phases, j, o, s.budget);
    RankUpdate(s.phases, j, Ended(o));
    WakeLowersRanks(cfg, ended, L.Released(s.budget, CostOf(cfg, j)).1, s.budget.capacity);
    PcRankUpdate(s.runs, cfg.owner[j], run);
  }

  lemma MoveLowersMeasure(s: State, t: State, r: nat, j: nat)
    requires j < |s.phases| && r < |s.runs| && |t.runs| == |s.runs| && |t.phases| == |s.phases|
    requires t.phases == s.phases[j := t.phases[j]] && t.runs == s.runs[r := t.runs[r]]
    requires 4 * Rank(t.phases[j]) + PcRank(t.runs[r].pc) < 4 * Rank(s.phases[j]) + PcRank(s.runs[r].pc)
    ensures Measure(t) < Measure(s)
  {
    hide Rank, PcRank, Sum;
    RankUpdate(s.phases, j, t.phases[j]);
    PcRankUpdate(s.runs, r, t.runs[r]);
  }

  lemma PcStepLowersMeasure(s: State, r: nat, pc: Pc)
    requires r < |s.runs| && PcRank(pc) < PcRank(s.runs[r].pc)
    ensures Measure(SetRun(s, r, s.runs[r].(pc := pc))) < Measure(s)
  {
    hide PcRank, Sum;
    PcRankUpdate(s.runs, r, s.runs[r].(pc := pc));
  }

  lemma FinallyLowersMeasure(cfg: Config, s: State, cache: map<string, Bytes>, j: nat, o: Outcome, chunk: LoadedChunk)
    requires Inv(cfg, s) && j < |cfg.jobs| && Holding(s.phases[j]) && cfg.owner[j] < |s.runs| && |cfg.owner| == |cfg.jobs|
    ensures Measure(EndTask(cfg, s, j, o)) < Measure(s)
    ensures Measure(ApplyMissing(cfg, s, j)) < Measure(s)
    ensures Measure(ApplyDelivery(cfg, s.(cache := cache), j, chunk)) < Measure(s)
  {
    hide RunsInv, BudgetOk, CacheOk, ValidConfig, EndTask, Measure, FetchedExists;
    var r := cfg.owner[j];
    SameRuns(s, r);
    EndLowersMeasure(cfg, s, s.runs[r], s.cache, j, o);
    EndLowersMeasure(cfg, s, ReportMissing(s.runs[r], j), s.cache, j, if cfg.runs[r].strict then StrictMissing else Missing);
    EndLowersMeasure(cfg, s, Deliver(s.runs[r], j, chunk), cache, j, Delivered);
  }

  /** Every step, of any run and in any order, lowers the measure: no run can go on forever. */
  lemma StepLowersMeasure(cfg: Config, s: State, step: Step)
    requires Inv(cfg, s) && Enabled(cfg, s, step)
    ensures Measure(Apply(cfg, s, step)) < Measure(s)
  {
    hide RunsInv, BudgetOk, CacheOk, ValidConfig, ApplyLaunch, ApplyResume, ApplyFetch, ApplyDecode, ApplyCallback, Measure;
    match step
    case Begin(r) => PcStepLowersMeasure(s, r, if s.runs[r].index < cfg.runs[r].stop && !s.runs[r].failed then Launching else Draining);
    case Block(r) => PcStepLowersMeasure(s, r, if s.runs[r].inFlight != {} then Racing(false) else Draining);
    case Wakeup(r) => PcStepLowersMeasure(s, r, Top);
    case Finish(r) => PcStepLowersMeasure(s, r, Finished);
    case Launch(r, hit) => LaunchLowersMeasure(cfg, s, r, hit);
    case Callback(j) => CallbackLowersMeasure(cfg, s, j);
    case _ => JobStepLowersMeasure(cfg, s, step);
  }

  lemma LaunchLowersMeasure(cfg: Config, s: State, r: nat, hit: bool)
    requires Inv(cfg, s) && Enabled(cfg, s, Launch(r, hit))
    ensures Measure(ApplyLaunch(cfg, s, r, hit)) < Measure(s)
  {
    hide RunsInv, BudgetOk, CacheOk, ValidConfig, Measure, L.Acquired;
    LaunchPhase(cfg, s, r);
    MoveLowersMeasure(s, ApplyLaunch(cfg, s, r, hit), r, s.runs[r].index);
  }

  lemma CallbackLowersMeasure(cfg: Config, s: State, j: nat)
    requires Inv(cfg, s) && Enabled(cfg, s, Callback(j))
    ensures Measure(ApplyCallback(cfg, s, j)) < Measure(s)
  {
    hide RunsInv, BudgetOk, CacheOk, ValidConfig, Measure;
    SizedParts(cfg, s, j);
    MoveLowersMeasure(s, ApplyCallback(cfg, s, j), cfg.owner[j], j);
  }

  lemma JobStepLowersMeasure(cfg: Config, s: State, step: Step)
    requires Inv(cfg, s) && Enabled(cfg, s, step) && (step.Resume? || step.Fetch? || step.Decode?)
    ensures Measure(Apply(cfg, s, step)) < Measure(s)
  {
    hide RunsInv, BudgetOk, CacheOk, ValidConfig, EndTask, ApplyMissing, ApplyDelivery, Measure;
    var j := step.job;
    SizedParts(cfg, s, j);
    SameRuns(s, cfg.owner[j]);
    match step
    case Resume(_) =>
      FinallyLowersMeasure(cfg, s, s.cache, j, Skipped, LoadedChunk([], [], false));
      MoveLowersMeasure(s, SetPhase(s, j, Fetching), cfg.owner[j], j);
    case Fetch(_, ok) =>
      var chunk := if cfg.jobs[j].key in cfg.store && UsesRange(cfg, j) then PartialChunk(cfg, j) else LoadedChunk([], [], false);
      FinallyLowersMeasure(cfg, s, s.cache, j, if ok then Skipped else Failed, chunk);
      MoveLowersMeasure(s, SetPhase(s, j, Decoding), cfg.owner[j], j);
    case Decode(_, ok) =>
      var data := DecodedBytes(cfg, j);
      var cache := if OwnerOf(cfg, j).cached then s.cache[cfg.jobs[j].key := data] else s.cache;
      FinallyLowersMeasure(cfg, s, cache, j, if ok then Skipped else Failed, LoadedChunk(cfg.jobs[j].chunkCoord, data, false));
  }

  /** The initial measure bounds the length of every execution. */
  lemma {:induction false} RunsEnd(cfg: Config, s: State, steps: seq<Step>, t: State)
    requires Inv(cfg, s) && Executes(cfg, s, steps, t)
    ensures |steps| + Measure(t) <= Measure(s)
    decreases |steps|
  {
    hide RunsInv, BudgetOk, CacheOk, Apply, Enabled, FetchedExists, ValidConfig, Measure;
    if steps != [] {
      StepKeepsInv(cfg, s, steps[0]);
      StepLowersMeasure(cfg, s, steps[0]);
      RunsEnd(cfg, Apply(cfg, s, steps[0]), steps[1..], t);
    }
  }

  // ---------------------------------------------------------------- progress

  lemma HoldingJobSteps(cfg: Config, s: State, j: nat)
    requires Sized(cfg, s) && j < |s.phases| && Holding(s.phases[j])
    ensures exists step :: Enabled(cfg, s, step)
  {
    match s.phases[j]
    case Ready => assert Enabled(cfg, s, Resume(j));
    case Fetching => assert Enabled(cfg, s, Fetch(j, true));
    case Decoding => assert Enabled(cfg, s, Decode(j, true));
  }

  /** If a job waits for bytes, some job holds bytes. */
  lemma WaitingMeansHeld(cfg: Config, phases: seq<Phase>, b: L.Budget, j: nat) returns (k: nat)
    requires ValidConfig(cfg) && |phases| == |cfg.jobs| && BudgetOk(cfg, phases, b)
    requires j < |phases| && phases[j].Waiting?
    ensures k < |phases| && Holding(phases[k])
  {
    hide ValidConfig, Reserved;
    assert b.waiters != [] by { assert j in L.Ids(b.waiters); }
    var held := HeldBy(cfg, phases, b.capacity);
    assert Sum(held) > 0;
    if i :| 0 <= i < |held| && held[i] > 0 {
      k := i;
      HeldByAt(cfg, phases, k, b.capacity);
    } else {
      SumZero(held);
    }
  }

  lemma InFlightSteps(cfg: Config, s: State, r: nat, j: nat)
    requires Inv(cfg, s) && r < |s.runs| && j in s.runs[r].inFlight
    ensures exists step :: Enabled(cfg, s, step)
  {
    hide BudgetOk, CacheOk, FetchedExists, LogOk, MissingOk, FailureOk, Enabled;
    RunOf(cfg, s, r);
    assert !s.phases[j].NotLaunched? && !s.phases[j].Gone?;
    if s.phases[j].Waiting? {
      var k := WaitingMeansHeld(cfg, s.phases, s.budget, j);
      HoldingJobSteps(cfg, s, k);
    } else if s.phases[j].Ended? {
      EndedJobSteps(cfg, s, j);
    } else {
      HoldingJobSteps(cfg, s, j);
    }
  }

  lemma EndedJobSteps(cfg: Config, s: State, j: nat)
    requires Sized(cfg, s) && j < |s.phases| && s.phases[j].Ended?
    ensures exists step :: Enabled(cfg, s, step)
  {
    assert Enabled(cfg, s, Callback(j));
  }

  lemma SchedulerCanStep(cfg: Config, s: State, r: nat)
    requires Sized(cfg, s) && r < |s.runs| && !s.runs[r].pc.Finished?
    requires s.runs[r].pc == Racing(false) || s.runs[r].pc.Draining? ==> s.runs[r].inFlight == {}
    requires s.runs[r].pc != Racing(false)
    ensures exists step :: Enabled(cfg, s, step)
  {
    match s.runs[r].pc
    case Top => assert Enabled(cfg, s, Begin(r));
    case Launching =>
      assert CanLaunch(cfg, s, r) ==> Enabled(cfg, s, Launch(r, false));
      assert !CanLaunch(cfg, s, r) ==> Enabled(cfg, s, Block(r));
    case Racing(_) => assert Enabled(cfg, s, Wakeup(r));
    case Draining => assert Enabled(cfg, s, Finish(r));
  }

  /** Every unfinished state can step: the shared limiter and the scheduler never deadlock. */
  lemma UnfinishedCanStep(cfg: Config, s: State, r: nat)
    requires Inv(cfg, s) && r < |s.runs| && !s.runs[r].pc.Finished?
    ensures exists step :: Enabled(cfg, s, step)
  {
    hide BudgetOk, CacheOk, FetchedExists, LogOk, MissingOk, FailureOk, Enabled;
    RunOf(cfg, s, r);
    var run := s.runs[r];
    if run.inFlight != {} && (run.pc == Racing(false) || run.pc.Draining?) {
      var j :| j in run.inFlight;
      InFlightSteps(cfg, s, r, j);
    } else {
      SchedulerCanStep(cfg, s, r);
    }
  }

  // -------------------------------------------------------- what a run ends with

  /** Never more than `concurrency` jobs of a run are started and unfinished. */
  lemma ConcurrencyBound(cfg: Config, s: State, r: nat, js: set<nat>)
    requires Inv(cfg, s) && r < |s.runs|
    requires forall j :: j in js ==> InRun(cfg.runs[r], j) && !s.phases[j].NotLaunched? && !s.phases[j].Gone?
    ensures |js| <= cfg.runs[r].concurrency
  {
    hide BudgetOk, CacheOk, FetchedExists, LogOk, MissingOk, FailureOk;
    RunOf(cfg, s, r);
    assert js <= s.runs[r].inFlight;
    SubsetSize(js, s.runs[r].inFlight);
  }

  lemma {:induction false} SubsetSize(a: set<nat>, b: set<nat>)
    requires a <= b
    ensures |a| <= |b|
  {
    if a != {} {
      var x :| x in a;
      SubsetSize(a - {x}, b - {x});
    }
  }

  /** What a failed run never changes again. */
  predicate SameAfterFailure(a: Run, b: Run) {
    b.failed && b.firstError == a.firstError && b.log == a.log && b.missing == a.missing && b.index == a.index
  }

  /** Once `failed` is set the run delivers nothing, reports nothing, launches nothing, and keeps its first error. */
  lemma FailureIsSilent(cfg: Config, s: State, step: Step, r: nat)
    requires Inv(cfg, s) && Enabled(cfg, s, step) && r < |s.runs| && s.runs[r].failed
    ensures |Apply(cfg, s, step).runs| == |s.runs| && SameAfterFailure(s.runs[r], Apply(cfg, s, step).runs[r])
  {
    hide RunsInv, BudgetOk, CacheOk, L.Acquired, DecodedBytes, PartialChunk, CostOf, UsesRange, EndTask, ValidConfig;
    if step.Resume? || step.Fetch? || step.Decode? {
      JobStepRuns(cfg, s, step, r);
    } else if step.Callback? {
      SizedParts(cfg, s, step.job);
    }
  }

  lemma JobStepRuns(cfg: Config, s: State, step: Step, r: nat)
    requires Inv(cfg, s) && Enabled(cfg, s, step) && r < |s.runs| && s.runs[r].failed
    requires step.Resume? || step.Fetch? || step.Decode?
    ensures |Apply(cfg, s, step).runs| == |s.runs| && Apply(cfg, s, step).runs[r] == s.runs[r]
  {
    hide RunsInv, BudgetOk, CacheOk, DecodedBytes, PartialChunk, CostOf, UsesRange, ValidConfig, L.Released, Wake;
    SizedParts(cfg, s, step.job);
  }

  /** The first error recorded is the one that stays, over every continuation. */
  lemma {:induction false} FailureIsFinal(cfg: Config, s: State, steps: seq<Step>, t: State, r: nat)
    requires Inv(cfg, s) && Executes(cfg, s, steps, t) && r < |s.runs| && s.runs[r].failed
    ensures |t.runs| == |s.runs| && SameAfterFailure(s.runs[r], t.runs[r])
    decreases |steps|
  {
    hide RunsInv, BudgetOk, CacheOk, Apply, Enabled, FetchedExists, ValidConfig;
    if steps != [] {
      StepKeepsInv(cfg, s, steps[0]);
      FailureIsSilent(cfg, s, steps[0], r);
      FailureIsFinal(cfg, Apply(cfg, s, steps[0]), steps[1..], t, r);
    }
  }

  /**
   A finished run, failed or not, holds and awaits nothing: when an error is thrown every
   reservation of the run is back in the budget, and the error is that of a job of the run.
   */
  lemma FinishedHoldsNothing(cfg: Config, s: State, r: nat)
    requires Inv(cfg, s) && r < |s.runs| && s.runs[r].pc.Finished?
    ensures forall j :: InRun(cfg.runs[r], j) ==> (s.phases[j].NotLaunched? && s.runs[r].failed) || s.phases[j].Gone?
    ensures s.runs[r].failed ==> InRun(cfg.runs[r], s.runs[r].firstError.value) && LeftWithError(s.phases[s.runs[r].firstError.value])
  {
    hide BudgetOk, CacheOk, FetchedExists, LogOk, MissingOk;
    RunOf(cfg, s, r);
    forall j | InRun(cfg.runs[r], j) ensures (s.phases[j].NotLaunched? && s.runs[r].failed) || s.phases[j].Gone? {
      assert j !in s.runs[r].inFlight;
    }
  }

  /** When every run is finished the whole budget is free and nobody waits. */
  lemma AllFinishedFreesBudget(cfg: Config, s: State)
    requires Inv(cfg, s) && forall r :: 0 <= r < |s.runs| ==> s.runs[r].pc.Finished?
    ensures s.budget.available == s.budget.capacity && s.budget.waiters == []
  {
    hide RunsInv, CacheOk, FetchedExists, L.Settled, Reserved;
    var held := HeldBy(cfg, s.phases, s.budget.capacity);
    forall j | 0 <= j < |s.phases| ensures !Active(s.phases[j]) && held[j] == 0 {
      SizedParts(cfg, s, j);
      FinishedHoldsNothing(cfg, s, cfg.owner[j]);
      HeldByAt(cfg, s.phases, j, s.budget.capacity);
    }
    SumZero(held);
    HeadWaits(cfg, s.phases, s.budget);
  }

  lemma HeadWaits(cfg: Config, phases: seq<Phase>, b: L.Budget)
    requires ValidConfig(cfg) && |phases| == |cfg.jobs| && BudgetOk(cfg, phases, b)
    ensures b.waiters != [] ==> b.waiters[0].id < |phases| && Active(phases[b.waiters[0].id])
  {
  }

  // ------------------------------------------------------ success is a complete load

  function JobsOf(log: seq<Delivery>): (jobs: seq<nat>)
    ensures |jobs| == |log|
    ensures forall k :: 0 <= k < |log| ==> jobs[k] == log[k].job
  {
    seq(|log|, k requires 0 <= k < |log| => log[k].job)
  }

  function ChunksOf(log: seq<Delivery>): (chunks: seq<LoadedChunk>)
    ensures |chunks| == |log|
    ensures forall k :: 0 <= k < |log| ==> chunks[k] == log[k].chunk
  {
    seq(|log|, k requires 0 <= k < |log| => log[k].chunk)
  }

  lemma LogCounts(cfg: Config, c: RunConfig, log: seq<Delivery>, phases: seq<Phase>, j: nat)
    requires c.stop <= |phases| == |cfg.jobs| && LogOk(cfg, c, log, phases) && InRun(c, j)
    ensures multiset(JobsOf(log))[j] == if HasOutcome(phases[j], Delivered) then 1 else 0
    ensures HasOutcome(phases[j], Delivered) ==> cfg.jobs[j].key in cfg.store
  {
    DistinctCount(JobsOf(log), j);
    if HasOutcome(phases[j], Delivered) {
      var k :| 0 <= k < |log| && log[k].job == j;
      assert JobsOf(log)[k] == j;
    }
    if j in JobsOf(log) {
      var k :| 0 <= k < |log| && JobsOf(log)[k] == j;
      assert log[k].job == j;
    }
  }

  lemma MissingCounts(cfg: Config, c: RunConfig, missing: seq<nat>, phases: seq<Phase>, j: nat)
    requires c.stop <= |phases| == |cfg.jobs| && MissingOk(cfg, c, missing, phases) && InRun(c, j)
    ensures multiset(missing)[j] == if FoundMissing(phases[j]) then 1 else 0
    ensures FoundMissing(phases[j]) ==> cfg.jobs[j].key !in cfg.store
  {
    DistinctCount(missing, j);
  }

  /** A finished run without failure delivered or found missing each of its jobs, once, as the store has it. */
  lemma SuccessCountsOnce(cfg: Config, s: State, r: nat, j: nat)
    requires Inv(cfg, s) && r < |s.runs| && s.runs[r].pc.Finished? && !s.runs[r].failed && InRun(cfg.runs[r], j)
    ensures multiset(JobsOf(s.runs[r].log))[j] == if cfg.jobs[j].key in cfg.store then 1 else 0
    ensures multiset(s.runs[r].missing)[j] == if cfg.jobs[j].key in cfg.store then 0 else 1
  {
    hide BudgetOk, CacheOk, FetchedExists, LogOk, MissingOk, RunsInv, JobsOf;
    var c, run := cfg.runs[r], s.runs[r];
    RunOf(cfg, s, r);
    FinishedHoldsNothing(cfg, s, r);
    SuccessOutcome(c, run, s.phases, j);
    LogCounts(cfg, c, run.log, s.phases, j);
    MissingCounts(cfg, c, run.missing, s.phases, j);
  }

  lemma SuccessOutcome(c: RunConfig, run: Run, phases: seq<Phase>, j: nat)
    requires c.stop <= |phases| && FailureOk(c, run, phases) && !run.failed && InRun(c, j) && phases[j].Gone?
    ensures HasOutcome(phases[j], Delivered) || HasOutcome(phases[j], Missing)
  {
    assert !LeftWithError(phases[j]) && !HasOutcome(phases[j], Skipped);
  }

  lemma LoggedIsDelivered(cfg: Config, c: RunConfig, log: seq<Delivery>, phases: seq<Phase>, j: nat)
    requires c.stop <= |phases| == |cfg.jobs| && LogOk(cfg, c, log, phases) && InRun(c, j)
    requires HasOutcome(phases[j], Delivered)
    ensures ArrayRead.Delivered(ChunksOf(log), cfg.jobs[j].chunkCoord)
  {
    var k :| 0 <= k < |log| && log[k].job == j;
    assert ChunksOf(log)[k] == log[k].chunk;
  }

  lemma LogIsGenuine(cfg: Config, c: RunConfig, log: seq<Delivery>, phases: seq<Phase>, k: nat)
    requires c.start <= c.stop <= |phases| == |cfg.jobs| && LogOk(cfg, c, log, phases) && k < |log|
    ensures Genuine(c.arr, cfg.store, cfg.jobs[c.start..c.stop], ChunksOf(log)[k])
  {
    hide GenuineFor;
    var tasks := cfg.jobs[c.start..c.stop];
    var i := log[k].job - c.start;
    assert tasks[i] == cfg.jobs[log[k].job];
    assert GenuineFor(c.arr, cfg.store, tasks[i], ChunksOf(log)[k]);
  }

  /**
   The log of a successful run is a complete load: every chunk in it is genuine and every stored
   chunk is in it, whatever the interleaving. With the run's jobs those of a selection, this is
   what a read needs to return the logical array.
   */
  lemma SuccessIsComplete(cfg: Config, s: State, r: nat)
    requires Inv(cfg, s) && r < |s.runs| && s.runs[r].pc.Finished? && !s.runs[r].failed
    ensures var c := cfg.runs[r];
            c.start <= c.stop <= |cfg.jobs| && Complete(c.arr, cfg.store, cfg.jobs[c.start..c.stop], ChunksOf(s.runs[r].log))
  {
    hide BudgetOk, CacheOk, FetchedExists, LogOk, MissingOk, RunsInv, FailureOk, ChunksOf, Genuine, ArrayRead.Delivered;
    var c, run := cfg.runs[r], s.runs[r];
    RunOf(cfg, s, r);
    var tasks := cfg.jobs[c.start..c.stop];
    forall k | 0 <= k < |run.log| ensures Genuine(c.arr, cfg.store, tasks, ChunksOf(run.log)[k]) {
      LogIsGenuine(cfg, c, run.log, s.phases, k);
    }
    forall i | 0 <= i < |tasks| && tasks[i].key in cfg.store ensures ArrayRead.Delivered(ChunksOf(run.log), tasks[i].chunkCoord) {
      var j := c.start + i;
      FinishedHoldsNothing(cfg, s, r);
      SuccessOutcome(c, run, s.phases, j);
      MissingCounts(cfg, c, run.missing, s.phases, j);
      LoggedIsDelivered(cfg, c, run.log, s.phases, j);
    }
  }

  /** The byte ranges a selection computes lie inside the stored chunks. */
  lemma TasksFit(arr: ZarrArray, store: Store, ranges: seq<DimRange>, sliced: bool, i: nat)
    requires ValidArray(arr) && ValidStore(arr, store) && ValidRanges(arr, ranges)
    requires i < |TasksFor(arr, ranges, sliced)|
    ensures RangeFits(store, TasksFor(arr, ranges, sliced)[i])
  {
    hide ByteRangeOf, CoordsOf, SliceChunkRanges, Prod;
    var coord := CoordsOf(SliceChunkRanges(arr, ranges))[i];
    CoordTouches(arr, ranges, i);
    if ByteRangeOf(arr, coord, ranges).Some? {
      ByteRangeInsideChunk(arr, ranges, coord);
    }
  }

  // --------------------------------------------- the scheduler's own stretch

  lemma {:induction false} OneStepMore(cfg: Config, s: State, steps: seq<Step>, t: State, step: Step)
    requires Inv(cfg, s) && Executes(cfg, s, steps, t) && Inv(cfg, t) && Enabled(cfg, t, step)
    ensures Executes(cfg, s, steps + [step], Apply(cfg, t, step))
    decreases |steps|
  {
    hide RunsInv, BudgetOk, CacheOk, Apply, Enabled, FetchedExists, ValidConfig;
    if steps == [] {
      assert ([step])[1..] == [];
      StepKeepsInv(cfg, s, step);
    } else {
      StepKeepsInv(cfg, s, steps[0]);
      OneStepMore(cfg, Apply(cfg, s, steps[0]), steps[1..], t, step);
      assert (steps + [step])[1..] == steps[1..] + [step];
    }
  }

  /** A job is served from the cache exactly when the run has one, with its chunk, still live. */
  ghost predicate TakesLive(cfg: Config, s: State, r: nat, live: string -> bool, j: int, hit: bool) {
    && r < |cfg.runs| && 0 <= j < |cfg.jobs|
    && (hit <==> cfg.runs[r].cached && cfg.jobs[j].key in s.cache && live(cfg.jobs[j].key))
  }

  /**
   The scheduler from the loop head to its next await, as one uninterrupted stretch: it launches
   jobs while it may, then races or drains. `live` says which cached keys are still in the cache.
   The stretch is a run of machine steps.
   */
  method SchedulerStretch(cfg: Config, s: State, r: nat, live: string -> bool) returns (t: State, ghost steps: seq<Step>)
    requires Inv(cfg, s) && r < |s.runs| && s.runs[r].pc.Top?
    ensures Executes(cfg, s, steps, t) && Inv(cfg, t)
    ensures r < |t.runs| && (t.runs[r].pc == Racing(false) || t.runs[r].pc.Draining?)
    ensures |t.runs[r].inFlight| >= cfg.runs[r].concurrency || t.runs[r].index == cfg.runs[r].stop || t.runs[r].failed
    ensures forall i :: 1 <= i < |steps| && steps[i].Launch? ==> TakesLive(cfg, s, r, live, s.runs[r].index + i - 1, steps[i].hit)
  {
    hide RunsInv, BudgetOk, CacheOk, FetchedExists, ValidConfig, Executes;
    steps := [];
    NoSteps(cfg, s);
    IndexBounds(cfg, s, r);
    t := ApplyBegin(cfg, s, r);
    Extend(cfg, s, steps, s, Begin(r));
    steps := steps + [Begin(r)];
    if t.runs[r].pc.Draining? {
      return;
    }
    while |t.runs[r].inFlight| < cfg.runs[r].concurrency && t.runs[r].index < cfg.runs[r].stop && !t.runs[r].failed
      invariant Inv(cfg, t) && Executes(cfg, s, steps, t)
      invariant r < |t.runs| && t.runs[r].pc.Launching?
      invariant |steps| == 1 + t.runs[r].index - s.runs[r].index && t.cache == s.cache && t.runs[r].index >= s.runs[r].index
      invariant forall i :: 1 <= i < |steps| ==> steps[i].Launch? && TakesLive(cfg, s, r, live, s.runs[r].index + i - 1, steps[i].hit)
      decreases cfg.runs[r].stop - t.runs[r].index
    {
      LaunchPhase(cfg, t, r);
      var key := cfg.jobs[t.runs[r].index].key;
      var hit := cfg.runs[r].cached && key in t.cache && live(key);
      Extend(cfg, s, steps, t, Launch(r, hit));
      steps := steps + [Launch(r, hit)];
      t := ApplyLaunch(cfg, t, r, hit);
    }
    IndexBounds(cfg, t, r);
    Extend(cfg, s, steps, t, Block(r));
    steps := steps + [Block(r)];
    t := ApplyBlock(t, r);
  }

  lemma IndexBounds(cfg: Config, s: State, r: nat)
    requires Inv(cfg, s) && r < |s.runs|
    ensures s.runs[r].index <= cfg.runs[r].stop
  {
    hide BudgetOk, CacheOk, FetchedExists, LogOk, MissingOk, FailureOk;
    RunOf(cfg, s, r);
  }

  lemma NoSteps(cfg: Config, s: State)
    requires Inv(cfg, s)
    ensures Executes(cfg, s, [], s)
  {
  }

  lemma Extend(cfg: Config, s: State, steps: seq<Step>, t: State, step: Step)
    requires Inv(cfg, s) && Executes(cfg, s, steps, t) && Inv(cfg, t) && Enabled(cfg, t, step)
    ensures Executes(cfg, s, steps + [step], Apply(cfg, t, step)) && Inv(cfg, Apply(cfg, t, step))
  {
    OneStepMore(cfg, s, steps, t, step);
    StepKeepsInv(cfg, t, step);
  }

  // ------------------------------------------------------------ running to the end

  predicate Unfinished(s: State) {
    exists r :: 0 <= r < |s.runs| && !s.runs[r].pc.Finished?
  }

  lemma SomeStep(cfg: Config, s: State)
    requires Inv(cfg, s) && Unfinished(s)
    ensures exists step :: step in EnabledSteps(cfg, s)
  {
    hide RunsInv, BudgetOk, CacheOk, FetchedExists, ValidConfig, Enabled, EnabledSteps;
    var r :| 0 <= r < |s.runs| && !s.runs[r].pc.Finished?;
    UnfinishedCanStep(cfg, s, r);
    var step :| Enabled(cfg, s, step);
    EnabledStepsExact(cfg, s, step);
  }

  /**
   Carry out the runs from the start to their end, each time taking any step that may happen
   next: stores and decoders answer or fail in any order, and cached chunks may be missed.
   */
  method RunToEnd(cfg: Config, capacity: int, cache: map<string, Bytes>) returns (t: State)
    requires ValidConfig(cfg) && CacheOk(cfg, cache)
    ensures Reaches(cfg, capacity, cache, t) && !Unfinished(t)
  {
    hide RunsInv, BudgetOk, CacheOk, FetchedExists, ValidConfig, Executes, Enabled, EnabledSteps, Apply, Initial, Measure, Unfinished;
    InitialHolds(cfg, capacity, cache);
    ghost var s := Initial(cfg, capacity, cache);
    ghost var steps := [];
    NoSteps(cfg, s);
    t := Initial(cfg, capacity, cache);
    while Unfinished(t)
      invariant Inv(cfg, t) && Executes(cfg, s, steps, t)
      decreases Measure(t)
    {
      SomeStep(cfg, t);
      var step :| step in EnabledSteps(cfg, t);
      EnabledStepsExact(cfg, t, step);
      StepLowersMeasure(cfg, t, step);
      Extend(cfg, s, steps, t, step);
      steps := steps + [step];
      t := Apply(cfg, t, step);
    }
  }
}
