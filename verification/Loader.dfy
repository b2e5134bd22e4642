/**
 The chunk loader as a step machine: one or several runs of `loadChunks` that share a byte
 limiter and a memory cache. A step is the code between two awaits; the store and the decoder
 answer in any order, and may fail.
 */
module Loader {
  import opened Vectors
  import opened ArrayModel
  import opened ChunkOverlap
  import opened ArrayRead
  import L = Limiter

  /** One `loadChunks` call: its jobs are the flat job numbers `start..stop`. */
  datatype RunConfig = RunConfig(arr: ZarrArray, start: nat, stop: nat, concurrency: nat, strict: bool, cached: bool, peakPerChunk: nat)

  datatype Config = Config(store: Store, runs: seq<RunConfig>, jobs: seq<ChunkTask>, owner: seq<nat>, codecs: map<string, Codec>)

  datatype Outcome = Delivered | Missing | StrictMissing | Failed | Skipped

  /** Where `processTask` of a job stands; `Ended` awaits its `then` callback. */
  datatype Phase =
    | NotLaunched
    | Waiting
    | Ready
    | Fetching
    | Decoding
    | Ended(outcome: Outcome)
    | Gone(outcome: Outcome)

  /** Where the scheduler stands; a race is woken once a raced job is gone. */
  datatype Pc = Top | Launching | Racing(woken: bool) | Draining | Finished

  datatype Delivery = Delivery(job: nat, chunk: LoadedChunk)

  datatype Run = Run(
    index: nat, inFlight: set<nat>, failed: bool, firstError: Option<nat>, pc: Pc, log: seq<Delivery>, missing: seq<nat>)

  datatype State = State(runs: seq<Run>, phases: seq<Phase>, budget: L.Budget, cache: map<string, Bytes>)

  predicate IsError(o: Outcome) { o == StrictMissing || o == Failed }

  predicate Active(p: Phase) { p.Waiting? || p.Ready? || p.Fetching? || p.Decoding? }

  /** Holds its reservation: granted, and not yet in `finally`. */
  predicate Holding(p: Phase) { p.Ready? || p.Fetching? || p.Decoding? }

  predicate HasOutcome(p: Phase, o: Outcome) { (p.Ended? || p.Gone?) && p.outcome == o }

  ghost predicate RangeFits(store: Store, task: ChunkTask) {
    task.byteRange.Some? && task.key in store ==>
      task.byteRange.value.offset + task.byteRange.value.length <= |store[task.key]|
  }

  predicate InRun(c: RunConfig, j: int) { c.start <= j < c.stop }

  ghost predicate ValidConfig(cfg: Config) {
    && |cfg.owner| == |cfg.jobs|
    && (forall r :: 0 <= r < |cfg.runs| ==>
          cfg.runs[r].start <= cfg.runs[r].stop <= |cfg.jobs| && cfg.runs[r].concurrency >= 1)
    && (forall j :: 0 <= j < |cfg.jobs| ==> cfg.owner[j] < |cfg.runs| && InRun(cfg.runs[cfg.owner[j]], j))
    && (forall r, j :: 0 <= r < |cfg.runs| && 0 <= j < |cfg.jobs| && InRun(cfg.runs[r], j) ==> cfg.owner[j] == r)
    && (forall j :: 0 <= j < |cfg.jobs| ==>
          && cfg.jobs[j].key in cfg.codecs && cfg.codecs[cfg.jobs[j].key] == cfg.runs[cfg.owner[j]].arr.codec
          && RangeFits(cfg.store, cfg.jobs[j]))
  }

  function OwnerOf(cfg: Config, j: nat): RunConfig
    requires ValidConfig(cfg) && j < |cfg.jobs|
  {
    cfg.runs[cfg.owner[j]]
  }

  /** The limiter cost of a job: the byte range it reads, or the peak of a whole chunk. */
  function CostOf(cfg: Config, j: nat): nat
    requires ValidConfig(cfg) && j < |cfg.jobs|
  {
    if cfg.jobs[j].byteRange.Some? then cfg.jobs[j].byteRange.value.length else OwnerOf(cfg, j).peakPerChunk
  }

  predicate UsesRange(cfg: Config, j: nat)
    requires ValidConfig(cfg) && j < |cfg.jobs|
  {
    OwnerOf(cfg, j).arr.codec.NoCodec? && OwnerOf(cfg, j).arr.hasGetRange && cfg.jobs[j].byteRange.Some?
  }

  ghost predicate Sized(cfg: Config, s: State) {
    ValidConfig(cfg) && |s.runs| == |cfg.runs| && |s.phases| == |cfg.jobs|
  }

  function InitialRun(c: RunConfig): Run {
    Run(c.start, {}, false, None, Top, [], [])
  }

  function Initial(cfg: Config, capacity: int, cache: map<string, Bytes>): State {
    State(seq(|cfg.runs|, r requires 0 <= r < |cfg.runs| => InitialRun(cfg.runs[r])),
          seq(|cfg.jobs|, j => NotLaunched), L.NewLedger(capacity).budget, cache)
  }

  // -------------------------------------------------------------- state updates

  function SetRun(s: State, r: nat, run: Run): State
    requires r < |s.runs|
  {
    s.(runs := s.runs[r := run])
  }

  function SetPhase(s: State, j: nat, p: Phase): State
    requires j < |s.phases|
  {
    s.(phases := s.phases[j := p])
  }

  /** The waiters a release woke resume holding their bytes. */
  function Wake(phases: seq<Phase>, woken: seq<L.Waiter>): (r: seq<Phase>)
    ensures |r| == |phases|
  {
    seq(|phases|, j requires 0 <= j < |phases| => if j in L.Ids(woken) then Ready else phases[j])
  }

  /** `finally`: the job gives its reservation back, which may wake others. */
  function EndTask(cfg: Config, s: State, j: nat, o: Outcome): State
    requires Sized(cfg, s) && j < |cfg.jobs|
  {
    var r := L.Released(s.budget, CostOf(cfg, j));
    s.(budget := r.0, phases := Wake(s.phases[j := Ended(o)], r.1))
  }

  function Deliver(run: Run, j: nat, chunk: LoadedChunk): Run {
    run.(log := run.log + [Delivery(j, chunk)])
  }

  function ReportMissing(run: Run, j: nat): Run {
    run.(missing := run.missing + [j])
  }

  // --------------------------------------------------------------------- steps

  datatype Step =
    | Begin(run: nat)
    | Launch(run: nat, hit: bool)
    | Block(run: nat)
    | Wakeup(run: nat)
    | Finish(run: nat)
    | Resume(job: nat)
    | Fetch(job: nat, ok: bool)
    | Decode(job: nat, ok: bool)
    | Callback(job: nat)

  predicate CanLaunch(cfg: Config, s: State, r: nat)
    requires Sized(cfg, s) && r < |s.runs|
  {
    |s.runs[r].inFlight| < cfg.runs[r].concurrency && s.runs[r].index < cfg.runs[r].stop && !s.runs[r].failed
  }

  predicate Enabled(cfg: Config, s: State, step: Step)
    requires Sized(cfg, s)
  {
    match step
    case Begin(r) => r < |s.runs| && s.runs[r].pc.Top?
    case Launch(r, hit) =>
      && r < |s.runs| && s.runs[r].pc.Launching? && CanLaunch(cfg, s, r)
      && (hit ==> cfg.runs[r].cached && cfg.jobs[s.runs[r].index].key in s.cache)
    case Block(r) => r < |s.runs| && s.runs[r].pc.Launching? && !CanLaunch(cfg, s, r)
    case Wakeup(r) => r < |s.runs| && s.runs[r].pc == Racing(true)
    case Finish(r) => r < |s.runs| && s.runs[r].pc.Draining? && s.runs[r].inFlight == {}
    case Resume(j) => j < |s.phases| && s.phases[j].Ready?
    case Fetch(j, ok) => j < |s.phases| && s.phases[j].Fetching?
    case Decode(j, ok) => j < |s.phases| && s.phases[j].Decoding? && (ok || OwnerOf(cfg, j).arr.codec.Codec?)
    case Callback(j) => j < |s.phases| && s.phases[j].Ended?
  }

  /** The outer loop test. */
  function ApplyBegin(cfg: Config, s: State, r: nat): State
    requires Sized(cfg, s) && r < |s.runs|
  {
    var run := s.runs[r];
    SetRun(s, r, run.(pc := if run.index < cfg.runs[r].stop && !run.failed then Launching else Draining))
  }

  /** Start the next job: a cache hit is delivered at once, anything else asks the limiter. */
  function ApplyLaunch(cfg: Config, s: State, r: nat, hit: bool): State
    requires Sized(cfg, s) && r < |s.runs| && s.runs[r].index < cfg.runs[r].stop
    requires hit ==> cfg.jobs[s.runs[r].index].key in s.cache
  {
    var run, j := s.runs[r], s.runs[r].index;
    var launched := run.(index := j + 1, inFlight := run.inFlight + {j});
    if hit then
      var chunk := LoadedChunk(cfg.jobs[j].chunkCoord, s.cache[cfg.jobs[j].key], false);
      SetPhase(SetRun(s, r, Deliver(launched, j, chunk)), j, Ended(Delivered))
    else
      var a := L.Acquired(s.budget, j, CostOf(cfg, j));
      SetPhase(SetRun(s, r, launched), j, if a.1 then Ready else Waiting).(budget := a.0)
  }

  /** Nothing more to launch now: race what is in flight, or leave the loop. */
  function ApplyBlock(s: State, r: nat): State
    requires r < |s.runs|
  {
    SetRun(s, r, s.runs[r].(pc := if s.runs[r].inFlight != {} then Racing(false) else Draining))
  }

  function ApplyResume(cfg: Config, s: State, j: nat): State
    requires Sized(cfg, s) && j < |cfg.jobs|
  {
    if s.runs[cfg.owner[j]].failed then EndTask(cfg, s, j, Skipped) else SetPhase(s, j, Fetching)
  }

  function ApplyMissing(cfg: Config, s: State, j: nat): State
    requires Sized(cfg, s) && j < |cfg.jobs|
  {
    var r := cfg.owner[j];
    EndTask(cfg, SetRun(s, r, ReportMissing(s.runs[r], j)), j, if cfg.runs[r].strict then StrictMissing else Missing)
  }

  function ApplyDelivery(cfg: Config, s: State, j: nat, chunk: LoadedChunk): State
    requires Sized(cfg, s) && j < |cfg.jobs|
  {
    var r := cfg.owner[j];
    EndTask(cfg, SetRun(s, r, Deliver(s.runs[r], j, chunk)), j, Delivered)
  }

  function PartialChunk(cfg: Config, j: nat): LoadedChunk
    requires ValidConfig(cfg) && j < |cfg.jobs| && cfg.jobs[j].key in cfg.store && cfg.jobs[j].byteRange.Some?
  {
    var br := cfg.jobs[j].byteRange.value;
    LoadedChunk(cfg.jobs[j].chunkCoord, cfg.store[cfg.jobs[j].key][br.offset..br.offset + br.length], true)
  }

  function DecodedBytes(cfg: Config, j: nat): Bytes
    requires ValidConfig(cfg) && j < |cfg.jobs| && cfg.jobs[j].key in cfg.store
  {
    DecodeRaw(OwnerOf(cfg, j).arr.codec, cfg.store[cfg.jobs[j].key])
  }

  /** The store answers, or rejects. */
  function ApplyFetch(cfg: Config, s: State, j: nat, ok: bool): State
    requires Sized(cfg, s) && j < |cfg.jobs|
  {
    if !ok then EndTask(cfg, s, j, Failed)
    else if s.runs[cfg.owner[j]].failed then EndTask(cfg, s, j, Skipped)
    else if cfg.jobs[j].key !in cfg.store then ApplyMissing(cfg, s, j)
    else if UsesRange(cfg, j) then ApplyDelivery(cfg, s, j, PartialChunk(cfg, j))
    else SetPhase(s, j, Decoding)
  }

  /** The decoder answers, or rejects; a decoded chunk is cached before it is delivered. */
  function ApplyDecode(cfg: Config, s: State, j: nat, ok: bool): State
    requires Sized(cfg, s) && j < |cfg.jobs| && cfg.jobs[j].key in cfg.store
  {
    if !ok then EndTask(cfg, s, j, Failed)
    else if s.runs[cfg.owner[j]].failed then EndTask(cfg, s, j, Skipped)
    else
      var data := DecodedBytes(cfg, j);
      var stored := if OwnerOf(cfg, j).cached then s.(cache := s.cache[cfg.jobs[j].key := data]) else s;
      ApplyDelivery(cfg, stored, j, LoadedChunk(cfg.jobs[j].chunkCoord, data, false))
  }

  /** The `then` callback: the job leaves the in-flight set; the first error is recorded. */
  function AfterCallback(run: Run, j: nat, o: Outcome): Run {
    var left := run.(inFlight := run.inFlight - {j}, pc := if run.pc.Racing? then Racing(true) else run.pc);
    if IsError(o) && !run.failed then left.(failed := true, firstError := Some(j)) else left
  }

  function ApplyCallback(cfg: Config, s: State, j: nat): State
    requires Sized(cfg, s) && j < |cfg.jobs| && s.phases[j].Ended?
  {
    var r := cfg.owner[j];
    SetPhase(SetRun(s, r, AfterCallback(s.runs[r], j, s.phases[j].outcome)), j, Gone(s.phases[j].outcome))
  }

  /** A decoding job has its raw bytes; only the store can have given them. */
  ghost predicate FetchedExists(cfg: Config, s: State)
    requires Sized(cfg, s)
  {
    forall j :: 0 <= j < |s.phases| && s.phases[j].Decoding? ==> cfg.jobs[j].key in cfg.store
  }

  function Apply(cfg: Config, s: State, step: Step): State
    requires Sized(cfg, s) && FetchedExists(cfg, s) && Enabled(cfg, s, step)
  {
    match step
    case Begin(r) => ApplyBegin(cfg, s, r)
    case Launch(r, hit) => ApplyLaunch(cfg, s, r, hit)
    case Block(r) => ApplyBlock(s, r)
    case Wakeup(r) => SetRun(s, r, s.runs[r].(pc := Top))
    case Finish(r) => SetRun(s, r, s.runs[r].(pc := Finished))
    case Resume(j) => ApplyResume(cfg, s, j)
    case Fetch(j, ok) => ApplyFetch(cfg, s, j, ok)
    case Decode(j, ok) => ApplyDecode(cfg, s, j, ok)
    case Callback(j) => ApplyCallback(cfg, s, j)
  }

  function SchedulerSteps(cfg: Config, s: State): set<Step>
    requires Sized(cfg, s)
  {
    (set r: nat | r < |s.runs| && Enabled(cfg, s, Begin(r)) :: Begin(r))
    + (set r: nat, hit: bool | r < |s.runs| && Enabled(cfg, s, Launch(r, hit)) :: Launch(r, hit))
    + (set r: nat | r < |s.runs| && Enabled(cfg, s, Block(r)) :: Block(r))
    + (set r: nat | r < |s.runs| && Enabled(cfg, s, Wakeup(r)) :: Wakeup(r))
    + (set r: nat | r < |s.runs| && Enabled(cfg, s, Finish(r)) :: Finish(r))
  }

  function JobSteps(cfg: Config, s: State): set<Step>
    requires Sized(cfg, s)
  {
    (set j: nat | j < |s.phases| && Enabled(cfg, s, Resume(j)) :: Resume(j))
    + (set j: nat, ok: bool | j < |s.phases| && Enabled(cfg, s, Fetch(j, ok)) :: Fetch(j, ok))
    + (set j: nat, ok: bool | j < |s.phases| && Enabled(cfg, s, Decode(j, ok)) :: Decode(j, ok))
    + (set j: nat | j < |s.phases| && Enabled(cfg, s, Callback(j)) :: Callback(j))
  }

  /** The steps that may happen next. */
  function EnabledSteps(cfg: Config, s: State): set<Step>
    requires Sized(cfg, s)
  {
    SchedulerSteps(cfg, s) + JobSteps(cfg, s)
  }

  predicate OfJob(step: Step) { step.Resume? || step.Fetch? || step.Decode? || step.Callback? }

  lemma SchedulerStepsExact(cfg: Config, s: State, step: Step)
    requires Sized(cfg, s)
    ensures step in SchedulerSteps(cfg, s) <==> !OfJob(step) && Enabled(cfg, s, step)
  {
    hide Sized, CanLaunch, OwnerOf;
  }

  lemma JobStepsExact(cfg: Config, s: State, step: Step)
    requires Sized(cfg, s)
    ensures step in JobSteps(cfg, s) <==> OfJob(step) && Enabled(cfg, s, step)
  {
    hide Sized, CanLaunch, OwnerOf;
  }

  /** The list of next steps leaves none out, so a choice from it may be any of them. */
  lemma EnabledStepsExact(cfg: Config, s: State, step: Step)
    requires Sized(cfg, s)
    ensures step in EnabledSteps(cfg, s) <==> Enabled(cfg, s, step)
  {
    hide Sized, Enabled, SchedulerSteps, JobSteps, OfJob;
    SchedulerStepsExact(cfg, s, step);
    JobStepsExact(cfg, s, step);
  }
}
