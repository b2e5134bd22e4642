/**
 The loader seen from its events: what a run delivers and caches at each answer of the store and
 the decoder, and for which answers it fails.
 */
module LoaderEvents {
  import opened Vectors
  import opened ArrayModel
  import opened ArrayRead
  import opened Loader
  import opened LoaderSafety
  import opened LoaderRuns
  import L = Limiter

  // --------------------------------------------------------- what a step delivers

  /** The job may be served by a byte range: it has one, nothing is compressed, and the store reads ranges. */
  ghost predicate RangeServed(cfg: Config, j: nat)
    requires ValidConfig(cfg) && j < |cfg.jobs|
  {
    var arr := cfg.runs[cfg.owner[j]].arr;
    cfg.jobs[j].byteRange.Some? && arr.codec == NoCodec && arr.hasGetRange
  }

  /** The stored bytes of a job, decoded. */
  ghost function Content(cfg: Config, j: nat): Bytes
    requires ValidConfig(cfg) && j < |cfg.jobs| && cfg.jobs[j].key in cfg.store
  {
    var raw := cfg.store[cfg.jobs[j].key];
    match cfg.runs[cfg.owner[j]].arr.codec
    case NoCodec => raw
    case Codec(decode) => decode(raw)
  }

  ghost function RangeBytes(cfg: Config, j: nat): Bytes
    requires ValidConfig(cfg) && j < |cfg.jobs| && cfg.jobs[j].key in cfg.store && cfg.jobs[j].byteRange.Some?
  {
    var offset, length := cfg.jobs[j].byteRange.value.offset, cfg.jobs[j].byteRange.value.length;
    cfg.store[cfg.jobs[j].key][offset..offset + length]
  }

  /** The chunks a step hands to run `r`: from the cache, as a byte range, or decoded; none once it has failed. */
  ghost function Delivers(cfg: Config, s: State, step: Step, r: nat): seq<Delivery>
    requires Sized(cfg, s) && FetchedExists(cfg, s) && Enabled(cfg, s, step) && r < |s.runs|
  {
    match step
    case Launch(q, hit) =>
      if hit && q == r then
        var j := s.runs[r].index;
        [Delivery(j, LoadedChunk(cfg.jobs[j].chunkCoord, s.cache[cfg.jobs[j].key], false))]
      else []
    case Fetch(j, ok) =>
      if ok && cfg.owner[j] == r && !s.runs[r].failed && cfg.jobs[j].key in cfg.store && RangeServed(cfg, j) then
        [Delivery(j, LoadedChunk(cfg.jobs[j].chunkCoord, RangeBytes(cfg, j), true))]
      else []
    case Decode(j, ok) =>
      if ok && cfg.owner[j] == r && !s.runs[r].failed then
        [Delivery(j, LoadedChunk(cfg.jobs[j].chunkCoord, Content(cfg, j), false))]
      else []
    case _ => []
  }

  /** The cache after a step: a decoded chunk of a caching run is kept, unless the run has failed. */
  ghost function CacheAfter(cfg: Config, s: State, step: Step): map<string, Bytes>
    requires Sized(cfg, s) && FetchedExists(cfg, s) && Enabled(cfg, s, step)
  {
    if step.Decode? && step.ok && !s.runs[cfg.owner[step.job]].failed && cfg.runs[cfg.owner[step.job]].cached then
      s.cache[cfg.jobs[step.job].key := Content(cfg, step.job)]
    else s.cache
  }

  lemma ContentIsDecoded(cfg: Config, j: nat)
    requires ValidConfig(cfg) && j < |cfg.jobs| && cfg.jobs[j].key in cfg.store
    ensures DecodedBytes(cfg, j) == Content(cfg, j)
  {
  }

  lemma RangeIsUsed(cfg: Config, j: nat)
    requires ValidConfig(cfg) && j < |cfg.jobs|
    ensures UsesRange(cfg, j) == RangeServed(cfg, j)
  {
  }

  lemma FetchDelivers(cfg: Config, s: State, j: nat, ok: bool, r: nat)
    requires Inv(cfg, s) && Enabled(cfg, s, Fetch(j, ok)) && r < |s.runs|
    ensures var t := ApplyFetch(cfg, s, j, ok);
            |t.runs| == |s.runs| && t.runs[r].log == s.runs[r].log + Delivers(cfg, s, Fetch(j, ok), r) && t.cache == s.cache
  {
    hide RunsInv, BudgetOk, CacheOk, CostOf, UsesRange, RangeServed, ValidConfig, L.Released, Wake;
    SizedParts(cfg, s, j);
    RangeIsUsed(cfg, j);
  }

  lemma DecodeDelivers(cfg: Config, s: State, j: nat, ok: bool, r: nat)
    requires Inv(cfg, s) && Enabled(cfg, s, Decode(j, ok)) && r < |s.runs|
    ensures var t := ApplyDecode(cfg, s, j, ok);
            && |t.runs| == |s.runs| && t.runs[r].log == s.runs[r].log + Delivers(cfg, s, Decode(j, ok), r)
            && t.cache == CacheAfter(cfg, s, Decode(j, ok))
  {
    hide RunsInv, BudgetOk, CacheOk, CostOf, DecodedBytes, Content, ValidConfig, L.Released, Wake;
    SizedParts(cfg, s, j);
    ContentIsDecoded(cfg, j);
  }

  lemma OtherDelivers(cfg: Config, s: State, step: Step, r: nat)
    requires Inv(cfg, s) && Enabled(cfg, s, step) && !step.Fetch? && !step.Decode? && r < |s.runs|
    ensures var t := Apply(cfg, s, step);
            |t.runs| == |s.runs| && t.runs[r].log == s.runs[r].log + Delivers(cfg, s, step, r) && t.cache == s.cache
  {
    hide RunsInv, BudgetOk, CacheOk, CostOf, ValidConfig, L.Released, L.Acquired, Wake;
    if OfJob(step) {
      SizedParts(cfg, s, step.job);
    }
  }

  /** Each step delivers to each run, and leaves in the cache, what it should and nothing else. */
  lemma StepDelivers(cfg: Config, s: State, step: Step, r: nat)
    requires Inv(cfg, s) && Enabled(cfg, s, step) && r < |s.runs|
    ensures var t := Apply(cfg, s, step);
            && |t.runs| == |s.runs| && t.runs[r].log == s.runs[r].log + Delivers(cfg, s, step, r)
            && t.cache == CacheAfter(cfg, s, step)
  {
    hide RunsInv, BudgetOk, CacheOk, ValidConfig, Delivers, ApplyFetch, ApplyDecode;
    match step
    case Fetch(j, ok) => FetchDelivers(cfg, s, j, ok, r);
    case Decode(j, ok) => DecodeDelivers(cfg, s, j, ok, r);
    case _ => OtherDelivers(cfg, s, step, r);
  }

  // ------------------------------------------------------- how chunks are served

  /** A job that may be read as a range is, unless the cache has its chunk; any other chunk comes whole, and is cached if the run caches. */
  ghost predicate EntryServed(cfg: Config, cache: map<string, Bytes>, d: Delivery)
    requires ValidConfig(cfg)
  {
    && d.job < |cfg.jobs|
    && var caches, key := cfg.runs[cfg.owner[d.job]].cached, cfg.jobs[d.job].key;
       if RangeServed(cfg, d.job) then d.chunk.partial || (caches && key in cache)
       else !d.chunk.partial && (caches ==> key in cache)
  }

  ghost predicate Served(cfg: Config, s: State)
    requires ValidConfig(cfg)
  {
    forall r, k :: 0 <= r < |s.runs| && 0 <= k < |s.runs[r].log| ==> EntryServed(cfg, s.cache, s.runs[r].log[k])
  }

  /** A key in the cache was there before, or is that of a caching run's job that is read whole. */
  ghost predicate CachedFor(cfg: Config, before: map<string, Bytes>, key: string)
    requires ValidConfig(cfg)
  {
    key in before
    || exists j :: 0 <= j < |cfg.jobs| && cfg.jobs[j].key == key && cfg.runs[cfg.owner[j]].cached && !RangeServed(cfg, j)
  }

  /** A decoding job is one that is read whole. */
  ghost predicate DecodesWhole(cfg: Config, s: State)
    requires Sized(cfg, s)
  {
    forall j :: 0 <= j < |s.phases| && s.phases[j].Decoding? ==> !RangeServed(cfg, j)
  }

  lemma NewEntryServed(cfg: Config, s: State, step: Step, r: nat)
    requires Inv(cfg, s) && Enabled(cfg, s, step) && r < |s.runs| && DecodesWhole(cfg, s)
    ensures forall k :: 0 <= k < |Delivers(cfg, s, step, r)| ==> EntryServed(cfg, CacheAfter(cfg, s, step), Delivers(cfg, s, step, r)[k])
  {
    hide RunsInv, BudgetOk, CacheOk, Content, RangeBytes;
    if step.Launch? {
      LaunchPhase(cfg, s, step.run);
    }
  }

  lemma StepDecodesWhole(cfg: Config, s: State, step: Step)
    requires Inv(cfg, s) && Enabled(cfg, s, step) && DecodesWhole(cfg, s)
    ensures Sized(cfg, Apply(cfg, s, step)) && DecodesWhole(cfg, Apply(cfg, s, step))
  {
    hide RunsInv, BudgetOk, CacheOk, CostOf, UsesRange, RangeServed, DecodedBytes, PartialChunk, ValidConfig, L.Released, L.Acquired;
    StepKeepsInv(cfg, s, step);
    if OfJob(step) {
      SizedParts(cfg, s, step.job);
      RangeIsUsed(cfg, step.job);
    }
  }

  lemma StepServes(cfg: Config, s: State, step: Step)
    requires Inv(cfg, s) && Enabled(cfg, s, step) && Served(cfg, s) && DecodesWhole(cfg, s)
    ensures Served(cfg, Apply(cfg, s, step))
  {
    hide RunsInv, BudgetOk, CacheOk, Delivers, Apply, RangeServed, CacheAfter;
    var t := Apply(cfg, s, step);
    RunCount(cfg, s, step);
    forall r, k | 0 <= r < |t.runs| && 0 <= k < |t.runs[r].log| ensures EntryServed(cfg, t.cache, t.runs[r].log[k]) {
      StepDelivers(cfg, s, step, r);
      NewEntryServed(cfg, s, step, r);
      CacheKeepsKeys(cfg, s, step);
      if k < |s.runs[r].log| {
        assert EntryServed(cfg, s.cache, s.runs[r].log[k]);
      }
    }
  }

  lemma RunCount(cfg: Config, s: State, step: Step)
    requires Inv(cfg, s) && Enabled(cfg, s, step)
    ensures |Apply(cfg, s, step).runs| == |s.runs|
  {
    hide RunsInv, BudgetOk, CacheOk, FetchedExists;
    StepKeepsInv(cfg, s, step);
  }

  lemma CacheKeepsKeys(cfg: Config, s: State, step: Step)
    requires Sized(cfg, s) && FetchedExists(cfg, s) && Enabled(cfg, s, step)
    ensures forall key :: key in s.cache ==> key in CacheAfter(cfg, s, step)
  {
    hide Content;
  }

  lemma StepCaches(cfg: Config, s: State, step: Step, before: map<string, Bytes>)
    requires Inv(cfg, s) && Enabled(cfg, s, step) && DecodesWhole(cfg, s)
    requires forall key :: key in s.cache ==> CachedFor(cfg, before, key)
    ensures forall key :: key in CacheAfter(cfg, s, step) ==> CachedFor(cfg, before, key)
  {
    hide RunsInv, BudgetOk, CacheOk, Content, RangeServed;
  }

  lemma {:induction false} RunServes(cfg: Config, s: State, steps: seq<Step>, t: State, before: map<string, Bytes>)
    requires Inv(cfg, s) && Executes(cfg, s, steps, t) && Served(cfg, s) && DecodesWhole(cfg, s)
    requires forall key :: key in s.cache ==> CachedFor(cfg, before, key)
    ensures Served(cfg, t) && forall key :: key in t.cache ==> CachedFor(cfg, before, key)
    decreases |steps|
  {
    hide RunsInv, BudgetOk, CacheOk, Apply, Enabled, FetchedExists, ValidConfig, Served, DecodesWhole, CachedFor, CacheAfter;
    if steps != [] {
      StepKeepsInv(cfg, s, steps[0]);
      StepServes(cfg, s, steps[0]);
      StepDecodesWhole(cfg, s, steps[0]);
      StepCaches(cfg, s, steps[0], before);
      StepCacheIs(cfg, s, steps[0]);
      RunServes(cfg, Apply(cfg, s, steps[0]), steps[1..], t, before);
    }
  }

  lemma StepCacheIs(cfg: Config, s: State, step: Step)
    requires Inv(cfg, s) && Enabled(cfg, s, step)
    ensures Apply(cfg, s, step).cache == CacheAfter(cfg, s, step)
  {
    hide RunsInv, BudgetOk, CacheOk, Delivers;
    match step
    case Fetch(j, ok) => FetchDelivers(cfg, s, j, ok, cfg.owner[j]);
    case Decode(j, ok) => DecodeDelivers(cfg, s, j, ok, cfg.owner[j]);
    case Launch(r, _) => OtherDelivers(cfg, s, step, r);
    case Begin(r) => OtherDelivers(cfg, s, step, r);
    case Block(r) => OtherDelivers(cfg, s, step, r);
    case Wakeup(r) => OtherDelivers(cfg, s, step, r);
    case Finish(r) => OtherDelivers(cfg, s, step, r);
    case Resume(j) => OtherDelivers(cfg, s, step, cfg.owner[j]);
    case Callback(j) => OtherDelivers(cfg, s, step, cfg.owner[j]);
  }

  /** These steps lead from the start of the runs, with this cache, to `t`. */
  ghost predicate RunsTo(cfg: Config, capacity: int, cache: map<string, Bytes>, steps: seq<Step>, t: State) {
    && ValidConfig(cfg) && CacheOk(cfg, cache)
    && (InitialHolds(cfg, capacity, cache); Executes(cfg, Initial(cfg, capacity, cache), steps, t))
  }

  /**
   In every interleaving byte ranges are used wherever they may be, and only for chunks that are not
   in the cache, ranges are never cached, and a caching run has cached every chunk it read whole.
   */
  lemma RangesAndCache(cfg: Config, capacity: int, cache: map<string, Bytes>, steps: seq<Step>, t: State)
    requires RunsTo(cfg, capacity, cache, steps, t)
    ensures Served(cfg, t) && forall key :: key in t.cache ==> CachedFor(cfg, cache, key)
  {
    hide Executes, CacheOk, Inv;
    InitialHolds(cfg, capacity, cache);
    RunServes(cfg, Initial(cfg, capacity, cache), steps, t, cache);
  }

  // --------------------------------------------------------- why a run fails

  /** The store or the decoder rejected the job. */
  ghost predicate Rejected(steps: seq<Step>, j: nat) {
    Fetch(j, false) in steps || Decode(j, false) in steps
  }

  /** The job is where it was, or has been granted its bytes. */
  predicate Unmoved(p: Phase, q: Phase) { q == p || (p.Waiting? && q.Ready?) }

  lemma WokenOutcome(phases: seq<Phase>, woken: seq<L.Waiter>, j: nat)
    requires j < |phases|
    ensures j !in L.Ids(woken) ==> Wake(phases, woken)[j] == phases[j]
    ensures j in L.Ids(woken) ==> Wake(phases, woken)[j] == Ready
  {
  }

  /** Only waiting jobs are woken, so an outcome stays; what was logged or cached meanwhile does not matter. */
  lemma EndOutcome(cfg: Config, s: State, runs: seq<Run>, cache: map<string, Bytes>, k: nat, o: Outcome, j: nat)
    requires Inv(cfg, s) && k < |cfg.jobs| && j < |cfg.jobs| && Holding(s.phases[k]) && |runs| == |s.runs|
    ensures var t := EndTask(cfg, State(runs, s.phases, s.budget, cache), k, o);
            && |t.phases| == |s.phases|
            && (if j == k then t.phases[j] == Ended(o) else Unmoved(s.phases[j], t.phases[j]))
  {
    hide RunsInv, CacheOk, FetchedExists, Wake, L.Released, CostOf, BudgetOk, ValidConfig;
    var woken := L.Released(s.budget, CostOf(cfg, k)).1;
    ReleaseKeepsBudget(cfg, s.phases, k, o, s.budget);
    WokenWaited(cfg, s.phases[k := Ended(o)], woken, s.budget.capacity, j);
    WokenWaited(cfg, s.phases[k := Ended(o)], woken, s.budget.capacity, k);
    WokenOutcome(s.phases[k := Ended(o)], woken, j);
  }

  lemma WokenWaited(cfg: Config, phases: seq<Phase>, woken: seq<L.Waiter>, capacity: nat, j: nat)
    requires ValidConfig(cfg) && |phases| == |cfg.jobs| && WaitersMatch(cfg, phases, woken, capacity) && j < |phases|
    ensures j in L.Ids(woken) ==> phases[j].Waiting?
  {
    hide ValidConfig, Reserved;
    if j in L.Ids(woken) {
      var k :| 0 <= k < |woken| && L.Ids(woken)[k] == j;
      assert woken[k].id == j;
    }
  }

  lemma FetchRejects(cfg: Config, s: State, k: nat, ok: bool, j: nat)
    requires Inv(cfg, s) && Enabled(cfg, s, Fetch(k, ok)) && j < |s.phases|
    ensures var t := ApplyFetch(cfg, s, k, ok);
            && |t.phases| == |s.phases|
            && (HasOutcome(t.phases[j], Failed) <==> HasOutcome(s.phases[j], Failed) || (j == k && !ok))
            && (j != k ==> Unmoved(s.phases[j], t.phases[j]))
            && (j == k && s.runs[cfg.owner[k]].failed ==> t.phases[j].Ended?)
  {
    hide RunsInv, BudgetOk, CacheOk, FetchedExists, UsesRange, PartialChunk, ValidConfig, EndTask;
    SizedParts(cfg, s, k);
    var r := cfg.owner[k];
    EndOutcome(cfg, s, s.runs, s.cache, k, Failed, j);
    EndOutcome(cfg, s, s.runs, s.cache, k, Skipped, j);
    RangeIsUsed(cfg, k);
    EndOutcome(cfg, s, s.runs[r := ReportMissing(s.runs[r], k)], s.cache, k, if cfg.runs[r].strict then StrictMissing else Missing, j);
    if cfg.jobs[k].key in cfg.store && UsesRange(cfg, k) {
      EndOutcome(cfg, s, s.runs[r := Deliver(s.runs[r], k, PartialChunk(cfg, k))], s.cache, k, Delivered, j);
    }
  }

  lemma DecodeRejects(cfg: Config, s: State, k: nat, ok: bool, j: nat)
    requires Inv(cfg, s) && Enabled(cfg, s, Decode(k, ok)) && j < |s.phases|
    ensures var t := ApplyDecode(cfg, s, k, ok);
            && |t.phases| == |s.phases|
            && (HasOutcome(t.phases[j], Failed) <==> HasOutcome(s.phases[j], Failed) || (j == k && !ok))
            && (j != k ==> Unmoved(s.phases[j], t.phases[j]))
            && (j == k && s.runs[cfg.owner[k]].failed ==> t.phases[j].Ended?)
  {
    hide RunsInv, BudgetOk, CacheOk, DecodedBytes, ValidConfig, EndTask;
    SizedParts(cfg, s, k);
    var r, data := cfg.owner[k], DecodedBytes(cfg, k);
    var cache := if OwnerOf(cfg, k).cached then s.cache[cfg.jobs[k].key := data] else s.cache;
    EndOutcome(cfg, s, s.runs, s.cache, k, Failed, j);
    EndOutcome(cfg, s, s.runs, s.cache, k, Skipped, j);
    EndOutcome(cfg, s, s.runs[r := Deliver(s.runs[r], k, LoadedChunk(cfg.jobs[k].chunkCoord, data, false))], cache, k, Delivered, j);
  }

  /** The job fails at a rejection and at nothing else, and stays failed. */
  lemma StepRejects(cfg: Config, s: State, step: Step, j: nat)
    requires Inv(cfg, s) && Enabled(cfg, s, step) && j < |s.phases|
    ensures |Apply(cfg, s, step).phases| == |s.phases|
    ensures HasOutcome(Apply(cfg, s, step).phases[j], Failed) <==>
              HasOutcome(s.phases[j], Failed) || step == Fetch(j, false) || step == Decode(j, false)
  {
    hide RunsInv, BudgetOk, CacheOk, FetchedExists, CostOf, ValidConfig, EndTask, L.Acquired, ApplyFetch, ApplyDecode;
    match step
    case Launch(r, _) => LaunchPhase(cfg, s, r);
    case Resume(k) =>
      SizedParts(cfg, s, k);
      EndOutcome(cfg, s, s.runs, s.cache, k, Skipped, j);
    case Fetch(k, ok) => FetchRejects(cfg, s, k, ok, j);
    case Decode(k, ok) => DecodeRejects(cfg, s, k, ok, j);
    case Callback(k) => SizedParts(cfg, s, k);
    case _ =>
  }

  lemma {:induction false} FailedIsRejected(cfg: Config, s: State, steps: seq<Step>, t: State, j: nat)
    requires Inv(cfg, s) && Executes(cfg, s, steps, t) && j < |s.phases|
    ensures |t.phases| == |s.phases|
    ensures HasOutcome(t.phases[j], Failed) <==> HasOutcome(s.phases[j], Failed) || Rejected(steps, j)
    decreases |steps|
  {
    hide RunsInv, BudgetOk, CacheOk, Apply, Enabled, FetchedExists, ValidConfig;
    if steps != [] {
      StepKeepsInv(cfg, s, steps[0]);
      StepRejects(cfg, s, steps[0], j);
      FailedIsRejected(cfg, Apply(cfg, s, steps[0]), steps[1..], t, j);
      assert steps == [steps[0]] + steps[1..];
    }
  }

  /** A job of the run was rejected, or is missing and the run is strict. */
  ghost predicate Cause(cfg: Config, steps: seq<Step>, r: nat, j: nat)
    requires ValidConfig(cfg) && r < |cfg.runs|
  {
    && cfg.runs[r].start <= j < cfg.runs[r].stop
    && (Rejected(steps, j) || (cfg.runs[r].strict && cfg.jobs[j].key !in cfg.store))
  }

  lemma ErrorHasCause(cfg: Config, s: State, r: nat)
    requires Inv(cfg, s) && r < |s.runs| && s.runs[r].failed
    ensures s.runs[r].firstError.Some?
    ensures var j := s.runs[r].firstError.value;
            InRun(cfg.runs[r], j) && (HasOutcome(s.phases[j], Failed) || (cfg.runs[r].strict && cfg.jobs[j].key !in cfg.store))
  {
    hide BudgetOk, CacheOk, FetchedExists, RunOk, LogOk;
    RunOf(cfg, s, r);
  }

  lemma CauseMeansFailed(cfg: Config, s: State, r: nat, j: nat)
    requires Inv(cfg, s) && r < |s.runs| && s.runs[r].pc.Finished? && InRun(cfg.runs[r], j)
    requires HasOutcome(s.phases[j], Failed) || (cfg.runs[r].strict && cfg.jobs[j].key !in cfg.store)
    ensures s.runs[r].failed
  {
    hide BudgetOk, CacheOk, FetchedExists, RunOk, LogOk;
    RunOf(cfg, s, r);
    FinishedHoldsNothing(cfg, s, r);
    if !s.runs[r].failed {
      SuccessOutcome(cfg.runs[r], s.runs[r], s.phases, j);
      LogCounts(cfg, cfg.runs[r], s.runs[r].log, s.phases, j);
    }
  }

  /**
   A finished run has failed exactly when the store or the decoder rejected one of its jobs, or a
   chunk is missing and the run is strict; the error it reports is that of such a job.
   */
  lemma FailsExactly(cfg: Config, capacity: int, cache: map<string, Bytes>, steps: seq<Step>, t: State, r: nat)
    requires RunsTo(cfg, capacity, cache, steps, t) && r < |cfg.runs| == |t.runs| && t.runs[r].pc.Finished?
    ensures t.runs[r].failed <==> exists j :: Cause(cfg, steps, r, j)
    ensures t.runs[r].failed ==> t.runs[r].firstError.Some? && Cause(cfg, steps, r, t.runs[r].firstError.value)
  {
    hide Executes, CacheOk, RunsInv, BudgetOk, FetchedExists;
    var s := Initial(cfg, capacity, cache);
    InitialHolds(cfg, capacity, cache);
    RunsKeepInv(cfg, s, steps, t);
    if t.runs[r].failed {
      ErrorHasCause(cfg, t, r);
      FailedIsRejected(cfg, s, steps, t, t.runs[r].firstError.value);
      assert Cause(cfg, steps, r, t.runs[r].firstError.value);
    }
    if j :| Cause(cfg, steps, r, j) {
      FailedIsRejected(cfg, s, steps, t, j);
      CauseMeansFailed(cfg, t, r, j);
    }
  }

  // --------------------------------------------------- nothing starts after it

  /** No fetch and no decode begins. */
  predicate StartsNothing(p: Phase, q: Phase) { (q.Fetching? ==> p.Fetching?) && (q.Decoding? ==> p.Decoding?) }

  /** Once a run has failed, a step starts no fetch and no decode for it, and caches none of its chunks. */
  lemma FailureStartsNothing(cfg: Config, s: State, step: Step, r: nat, j: nat)
    requires Inv(cfg, s) && Enabled(cfg, s, step) && r < |s.runs| && s.runs[r].failed && InRun(cfg.runs[r], j) && j < |s.phases|
    ensures |Apply(cfg, s, step).phases| == |s.phases| && StartsNothing(s.phases[j], Apply(cfg, s, step).phases[j])
    ensures OfJob(step) && step.job == j ==> Apply(cfg, s, step).cache == s.cache
  {
    hide RunsInv, BudgetOk, CacheOk, FetchedExists, CostOf, ValidConfig, EndTask, L.Acquired, ApplyFetch, ApplyDecode;
    OwnedBy(cfg, s, r, j);
    match step
    case Launch(q, _) => LaunchPhase(cfg, s, q);
    case Resume(k) =>
      SizedParts(cfg, s, k);
      EndOutcome(cfg, s, s.runs, s.cache, k, Skipped, j);
      StepCacheIs(cfg, s, step);
    case Fetch(k, ok) =>
      FetchRejects(cfg, s, k, ok, j);
      StepCacheIs(cfg, s, step);
    case Decode(k, ok) =>
      DecodeRejects(cfg, s, k, ok, j);
      StepCacheIs(cfg, s, step);
    case Callback(k) => SizedParts(cfg, s, k);
    case _ =>
  }

  lemma OwnedBy(cfg: Config, s: State, r: nat, j: nat)
    requires Sized(cfg, s) && r < |s.runs| && InRun(cfg.runs[r], j) && j < |s.phases|
    ensures cfg.owner[j] == r
  {
  }

  /** Nor does any continuation. */
  lemma {:induction false} FailureStartsNothingLater(cfg: Config, s: State, steps: seq<Step>, t: State, r: nat, j: nat)
    requires Inv(cfg, s) && Executes(cfg, s, steps, t) && r < |s.runs| && s.runs[r].failed && InRun(cfg.runs[r], j) && j < |s.phases|
    ensures |t.phases| == |s.phases| && StartsNothing(s.phases[j], t.phases[j])
    decreases |steps|
  {
    hide RunsInv, BudgetOk, CacheOk, Apply, Enabled, FetchedExists, ValidConfig;
    if steps != [] {
      StepKeepsInv(cfg, s, steps[0]);
      FailureIsSilent(cfg, s, steps[0], r);
      FailureStartsNothing(cfg, s, steps[0], r, j);
      FailureStartsNothingLater(cfg, Apply(cfg, s, steps[0]), steps[1..], t, r, j);
    }
  }

  // ------------------------------------------------------ the bytes in flight

  lemma {:induction false} CapacityStays(cfg: Config, s: State, steps: seq<Step>, t: State)
    requires Inv(cfg, s) && Executes(cfg, s, steps, t)
    ensures t.budget.capacity == s.budget.capacity
    decreases |steps|
  {
    hide RunsInv, BudgetOk, CacheOk, Apply, Enabled, FetchedExists, ValidConfig;
    if steps != [] {
      StepKeepsInv(cfg, s, steps[0]);
      StepKeepsCapacity(cfg, s, steps[0]);
      CapacityStays(cfg, Apply(cfg, s, steps[0]), steps[1..], t);
    }
  }

  lemma ReleaseKeepsCapacity(b: L.Budget, cost: int)
    ensures L.Released(b, cost).0.capacity == b.capacity
  {
    hide L.Pump;
    var a := b.available + L.Clamp(cost, b.capacity);
    L.PumpKeepsCapacity(b.(available := if a > b.capacity then b.capacity else a));
  }

  lemma StepKeepsCapacity(cfg: Config, s: State, step: Step)
    requires Inv(cfg, s) && Enabled(cfg, s, step)
    ensures Apply(cfg, s, step).budget.capacity == s.budget.capacity
  {
    hide RunsInv, BudgetOk, CacheOk, UsesRange, DecodedBytes, PartialChunk, CostOf, ValidConfig, L.Released, Wake;
    if OfJob(step) {
      ReleaseKeepsCapacity(s.budget, CostOf(cfg, step.job));
    }
  }

  /**
   In every interleaving the bytes reserved by all runs together, each job's byte range or the peak
   of a whole chunk cut to the budget, and the bytes free add up to the budget the caller gave.
   */
  lemma BytesInFlight(cfg: Config, capacity: int, cache: map<string, Bytes>, steps: seq<Step>, t: State)
    requires RunsTo(cfg, capacity, cache, steps, t)
    ensures |t.phases| == |cfg.jobs|
    ensures t.budget.capacity == (if capacity > 1 then capacity else 1) && 0 <= t.budget.available
    ensures t.budget.available + Sum(HeldBy(cfg, t.phases, t.budget.capacity)) == t.budget.capacity
  {
    hide Executes, CacheOk, RunsInv, FetchedExists, ValidConfig;
    var s := Initial(cfg, capacity, cache);
    InitialHolds(cfg, capacity, cache);
    RunsKeepInv(cfg, s, steps, t);
    CapacityStays(cfg, s, steps, t);
  }
}
