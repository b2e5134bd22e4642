/**
 One read of an array from end to end: its chunk requests are loaded by the loader machine, in any
 interleaving, through a memory cache that earlier reads may have filled.
 */
module ArrayLoad {
  import opened Vectors
  import opened ChunkIndexing
  import opened ArrayModel
  import opened ArrayMeaning
  import opened ArrayRead
  import opened Loader
  import opened LoaderSafety
  import opened LoaderRuns
  import opened LoaderEvents

  datatype LoadOptions = LoadOptions(capacity: int, concurrency: nat, strict: bool, cached: bool)

  datatype GetResult = Got(values: seq<Elem>) | LoadFailed(job: nat)

  // ---------------------------------------------------------- what is wanted

  /** A selection, or the whole array where there is none. */
  ghost predicate ValidWanted(arr: ZarrArray, selection: Option<Selection>) {
    && ValidArray(arr)
    && (selection.Some? ==>
          |selection.value| == |arr.shape| && ValidRanges(arr, NormalizeSelection(selection.value, arr.shape)))
  }

  function WantedRanges(arr: ZarrArray, selection: Option<Selection>): (ranges: seq<DimRange>)
    requires ValidWanted(arr, selection)
    ensures ValidRanges(arr, ranges)
  {
    if selection.Some? then NormalizeSelection(selection.value, arr.shape) else FullRanges(arr.shape)
  }

  ghost function WantedTasks(arr: ZarrArray, selection: Option<Selection>): seq<ChunkTask>
    requires ValidWanted(arr, selection)
  {
    TasksFor(arr, WantedRanges(arr, selection), selection.Some?)
  }

  /** What the read means: the logical array over the selection. */
  ghost function WantedValues(arr: ZarrArray, store: Store, selection: Option<Selection>): seq<Elem>
    requires ValidWanted(arr, selection) && ValidStore(arr, store)
  {
    ReadSpec(arr, store, WantedRanges(arr, selection))
  }

  lemma WantedIsHeld(arr: ZarrArray, store: Store, selection: Option<Selection>)
    requires ValidWanted(arr, selection) && ValidStore(arr, store)
    ensures HoldsWanted(arr, store, selection, WantedValues(arr, store, selection))
  {
    hide ValidStore, ReadSpec, HoldsSelection, HoldsWhole, NormalizeSelection;
    if selection.Some? {
      SpecHoldsSelection(arr, store, selection.value);
    } else {
      SpecHoldsWhole(arr, store);
    }
  }

  method RequestTasks(arr: ZarrArray, selection: Option<Selection>) returns (tasks: seq<ChunkTask>)
    requires ValidWanted(arr, selection)
    ensures tasks == WantedTasks(arr, selection)
  {
    hide TasksFor, NormalizeSelection;
    if selection.Some? {
      tasks := SliceTasks(arr, NormalizeSelection(selection.value, arr.shape));
    } else {
      tasks := FullTasks(arr);
    }
  }

  /** The read itself, from a complete load. */
  method Reassemble(arr: ZarrArray, ghost store: Store, selection: Option<Selection>, deliveries: seq<LoadedChunk>)
    returns (output: array<Elem>)
    requires ValidWanted(arr, selection) && ValidStore(arr, store)
    requires Complete(arr, store, WantedTasks(arr, selection), deliveries)
    ensures fresh(output) && output[..] == WantedValues(arr, store, selection)
  {
    hide TasksFor, NormalizeSelection, Complete, ReadSpec, ValidStore;
    var tasks;
    if selection.Some? {
      output, tasks := GetSlice(arr, store, selection.value, deliveries);
    } else {
      output, tasks := GetFull(arr, store, deliveries);
    }
  }

  /** A read fed by a successful run returns the logical array over the selection. */
  method ReadFromRun(cfg: Config, ghost s: State, ghost r: nat, arr: ZarrArray, selection: Option<Selection>, deliveries: seq<LoadedChunk>)
    returns (output: array<Elem>)
    requires Inv(cfg, s) && r < |s.runs| && s.runs[r].pc.Finished? && !s.runs[r].failed
    requires cfg.runs[r].arr == arr && ValidStore(arr, cfg.store) && ValidWanted(arr, selection)
    requires cfg.runs[r].start <= cfg.runs[r].stop <= |cfg.jobs|
    requires cfg.jobs[cfg.runs[r].start..cfg.runs[r].stop] == WantedTasks(arr, selection)
    requires deliveries == ChunksOf(s.runs[r].log)
    ensures fresh(output) && output[..] == WantedValues(arr, cfg.store, selection)
  {
    hide Complete, WantedTasks, WantedValues, ValidStore, Inv, ValidWanted;
    SuccessIsComplete(cfg, s, r);
    output := Reassemble(arr, cfg.store, selection, deliveries);
  }

  // ------------------------------------------------------------ a load alone

  function Keys(tasks: seq<ChunkTask>): set<string> {
    set task | task in tasks :: task.key
  }

  /** The peak of one chunk in flight: decoded, beside its compressed bytes or its byte-swapped copy. */
  function PeakPerChunk(arr: ZarrArray): nat {
    Prod(arr.chunks) * arr.byteSize * ((if arr.codec.Codec? then 2 else 1) + (if arr.bigEndian then 1 else 0))
  }

  /** Each buffer of a chunk in flight has the decoded chunk's size. */
  lemma PeakCoversBuffers(arr: ZarrArray, store: Store, coord: Vec)
    requires ValidArray(arr) && ValidStore(arr, store) && |coord| == |arr.chunks| && KeyOf(arr, coord) in store
    ensures var n := |DecodeRaw(arr.codec, store[KeyOf(arr, coord)])|;
            PeakPerChunk(arr) == n + (if arr.codec == NoCodec then 0 else n) + (if arr.bigEndian then n else 0)
  {
  }

  /** The loader for one read: one run, with every request a job of it. */
  function OneRun(arr: ZarrArray, store: Store, tasks: seq<ChunkTask>, o: LoadOptions): Config {
    Config(store, [RunConfig(arr, 0, |tasks|, o.concurrency, o.strict, o.cached, PeakPerChunk(arr))],
           tasks, seq(|tasks|, _ => 0), map key | key in Keys(tasks) :: arr.codec)
  }

  lemma OneRunIsValid(arr: ZarrArray, store: Store, tasks: seq<ChunkTask>, o: LoadOptions)
    requires o.concurrency >= 1 && forall i :: 0 <= i < |tasks| ==> RangeFits(store, tasks[i])
    ensures ValidConfig(OneRun(arr, store, tasks, o))
    ensures var run := OneRun(arr, store, tasks, o).runs[0];
            run.arr == arr && run.concurrency == o.concurrency && run.strict == o.strict && run.cached == o.cached
  {
    hide RangeFits;
  }

  /** Whatever the cache holds of this array is what the store holds, decoded. */
  ghost predicate Coherent(arr: ZarrArray, store: Store, cache: map<string, Bytes>) {
    forall coord: Vec :: |coord| == |arr.chunks| && KeyOf(arr, coord) in cache ==>
      && KeyOf(arr, coord) in store
      && cache[KeyOf(arr, coord)] == DecodeRaw(arr.codec, store[KeyOf(arr, coord)])
  }

  lemma TaskKeys(arr: ZarrArray, selection: Option<Selection>, i: nat)
    requires ValidWanted(arr, selection) && i < |WantedTasks(arr, selection)|
    ensures var task := WantedTasks(arr, selection)[i];
            |task.chunkCoord| == |arr.chunks| && task.key == KeyOf(arr, task.chunkCoord)
  {
    hide CoordsOf, SliceChunkRanges, NormalizeSelection;
    CoordTouches(arr, WantedRanges(arr, selection), i);
  }

  lemma CoherentIsCacheOk(arr: ZarrArray, store: Store, selection: Option<Selection>, o: LoadOptions, cache: map<string, Bytes>)
    requires ValidWanted(arr, selection) && Coherent(arr, store, cache)
    ensures CacheOk(OneRun(arr, store, WantedTasks(arr, selection), o), cache)
  {
    hide WantedTasks, ValidWanted, KeyOf, DecodeRaw;
    var tasks := WantedTasks(arr, selection);
    forall key | key in cache && key in Keys(tasks) ensures key in store && cache[key] == DecodeRaw(arr.codec, store[key]) {
      var i :| 0 <= i < |tasks| && tasks[i].key == key;
      TaskKeys(arr, selection, i);
    }
  }

  /** A step caches nothing under a key that is no job's. */
  lemma StepCachesJobs(cfg: Config, s: State, step: Step, key: string)
    requires Inv(cfg, s) && Enabled(cfg, s, step) && key !in cfg.codecs
    ensures var t := Apply(cfg, s, step);
            (key in t.cache <==> key in s.cache) && (key in s.cache ==> t.cache[key] == s.cache[key])
  {
    hide RunsInv, BudgetOk, CacheOk, Wake, DecodedBytes, PartialChunk, L.Released, L.Acquired, UsesRange, CostOf;
  }

  lemma {:induction false} RunCachesJobs(cfg: Config, s: State, steps: seq<Step>, t: State, key: string)
    requires Inv(cfg, s) && Executes(cfg, s, steps, t) && key !in cfg.codecs
    ensures (key in t.cache <==> key in s.cache) && (key in s.cache ==> t.cache[key] == s.cache[key])
    decreases |steps|
  {
    hide RunsInv, BudgetOk, CacheOk, Apply, Enabled, FetchedExists, ValidConfig;
    if steps != [] {
      StepKeepsInv(cfg, s, steps[0]);
      StepCachesJobs(cfg, s, steps[0], key);
      RunCachesJobs(cfg, Apply(cfg, s, steps[0]), steps[1..], t, key);
    }
  }

  /** `s` is an end of a load of the selection that started with this cache. */
  ghost predicate Loaded(arr: ZarrArray, store: Store, selection: Option<Selection>, o: LoadOptions, cache: map<string, Bytes>, s: State)
    requires ValidWanted(arr, selection)
  {
    Reaches(OneRun(arr, store, WantedTasks(arr, selection), o), o.capacity, cache, s) && !Unfinished(s)
  }

  lemma LoadedFacts(arr: ZarrArray, store: Store, selection: Option<Selection>, o: LoadOptions, cache: map<string, Bytes>, s: State)
    requires ValidWanted(arr, selection) && Loaded(arr, store, selection, o, cache, s)
    ensures Inv(OneRun(arr, store, WantedTasks(arr, selection), o), s)
    ensures |s.runs| == 1 && s.runs[0].pc.Finished? && (s.runs[0].failed <==> s.runs[0].firstError.Some?)
  {
    hide RunOk, LogOk, MissingOk, BudgetOk, CacheOk, WantedTasks, ValidWanted, Executes, Reaches;
    var cfg := OneRun(arr, store, WantedTasks(arr, selection), o);
    ReachedSatisfiesInv(cfg, o.capacity, cache, s);
    assert cfg.runs[0].start == 0;
    RunOf(cfg, s, 0);
  }

  /** A load keeps the cache coherent, so later reads may share it. */
  lemma LoadKeepsCoherent(arr: ZarrArray, store: Store, selection: Option<Selection>, o: LoadOptions, cache: map<string, Bytes>, s: State)
    requires ValidWanted(arr, selection) && Coherent(arr, store, cache) && Loaded(arr, store, selection, o, cache, s)
    ensures Coherent(arr, store, s.cache)
  {
    hide WantedTasks, ValidWanted, KeyOf, DecodeRaw, Executes, RunsInv, BudgetOk, FetchedExists, ValidConfig, Unfinished;
    var cfg := OneRun(arr, store, WantedTasks(arr, selection), o);
    LoadedFacts(arr, store, selection, o, cache, s);
    InitialHolds(cfg, o.capacity, cache);
    var steps :| Executes(cfg, Initial(cfg, o.capacity, cache), steps, s);
    forall coord: Vec | |coord| == |arr.chunks| && KeyOf(arr, coord) in s.cache
      ensures KeyOf(arr, coord) in store && s.cache[KeyOf(arr, coord)] == DecodeRaw(arr.codec, store[KeyOf(arr, coord)])
    {
      var key := KeyOf(arr, coord);
      if key !in cfg.codecs {
        RunCachesJobs(cfg, Initial(cfg, o.capacity, cache), steps, s, key);
      }
    }
  }

  /** Every chunk the read needs is in the store. */
  ghost predicate NoneMissing(arr: ZarrArray, store: Store, selection: Option<Selection>)
    requires ValidWanted(arr, selection)
  {
    forall coord: Vec :: Meets(arr, WantedRanges(arr, selection), coord) ==> StoreKey(arr, coord) in store
  }

  lemma StrictSuccess(arr: ZarrArray, store: Store, selection: Option<Selection>, o: LoadOptions, cache: map<string, Bytes>, s: State)
    requires ValidWanted(arr, selection) && Loaded(arr, store, selection, o, cache, s) && |s.runs| == 1 && !s.runs[0].failed && o.strict
    ensures NoneMissing(arr, store, selection)
  {
    hide WantedTasks, ValidWanted, Inv, Loaded, Meets, StoreKey, AsksFor;
    var tasks := WantedTasks(arr, selection);
    LoadedFacts(arr, store, selection, o, cache, s);
    WantedAreMet(arr, selection);
    forall coord: Vec | Meets(arr, WantedRanges(arr, selection), coord) ensures StoreKey(arr, coord) in store {
      var i :| 0 <= i < |tasks| && tasks[i].chunkCoord == coord && tasks[i].key == StoreKey(arr, coord);
      if tasks[i].key !in store {
        CauseMeansFailed(OneRun(arr, store, tasks, o), s, 0, i);
      }
    }
  }

  /** Every stored chunk that the read takes whole is in the cache. */
  ghost predicate WholeChunksCached(arr: ZarrArray, store: Store, selection: Option<Selection>, cache: map<string, Bytes>)
    requires ValidWanted(arr, selection)
  {
    var ranges := WantedRanges(arr, selection);
    forall coord: Vec :: Meets(arr, ranges, coord) && StoreKey(arr, coord) in store && !(selection.Some? && MayUseRange(arr, ranges, coord)) ==>
      StoreKey(arr, coord) in cache
  }

  lemma StoredIsLogged(cfg: Config, s: State, j: nat) returns (k: nat)
    requires Inv(cfg, s) && |s.runs| == 1 && s.runs[0].pc.Finished? && !s.runs[0].failed && InRun(cfg.runs[0], j)
    requires j < |cfg.jobs| && cfg.jobs[j].key in cfg.store
    ensures k < |s.runs[0].log| && s.runs[0].log[k].job == j
  {
    hide RunsInv, BudgetOk, CacheOk, FetchedExists, ValidConfig, JobsOf;
    SuccessCountsOnce(cfg, s, 0, j);
    assert j in JobsOf(s.runs[0].log);
    k :| 0 <= k < |s.runs[0].log| && JobsOf(s.runs[0].log)[k] == j;
  }

  lemma TaskIsCached(cfg: Config, s: State, j: nat)
    requires Inv(cfg, s) && Served(cfg, s) && |s.runs| == 1 && s.runs[0].pc.Finished? && !s.runs[0].failed && InRun(cfg.runs[0], j)
    requires j < |cfg.jobs| && cfg.jobs[j].key in cfg.store && cfg.jobs[j].byteRange.None? && cfg.runs[0].cached
    ensures cfg.jobs[j].key in s.cache
  {
    hide RunsInv, BudgetOk, CacheOk, FetchedExists;
    OwnedBy(cfg, s, 0, j);
    var k := StoredIsLogged(cfg, s, j);
    assert EntryServed(cfg, s.cache, s.runs[0].log[k]);
  }

  lemma LoadCaches(arr: ZarrArray, store: Store, selection: Option<Selection>, o: LoadOptions, cache: map<string, Bytes>, s: State)
    requires ValidWanted(arr, selection) && Loaded(arr, store, selection, o, cache, s) && |s.runs| == 1 && !s.runs[0].failed && o.cached
    ensures WholeChunksCached(arr, store, selection, s.cache)
  {
    hide WantedTasks, ValidWanted, Inv, Executes, Served, StoreKey, MayUseRange, CacheOk, Unfinished, ValidConfig;
    var ranges, tasks := WantedRanges(arr, selection), WantedTasks(arr, selection);
    var cfg := OneRun(arr, store, tasks, o);
    LoadedFacts(arr, store, selection, o, cache, s);
    InitialHolds(cfg, o.capacity, cache);
    var steps :| Executes(cfg, Initial(cfg, o.capacity, cache), steps, s);
    RangesAndCache(cfg, o.capacity, cache, steps, s);
    WantedAreMet(arr, selection);
    WantedAsk(arr, selection);
    forall coord: Vec | Meets(arr, ranges, coord) && StoreKey(arr, coord) in store && !(selection.Some? && MayUseRange(arr, ranges, coord))
      ensures StoreKey(arr, coord) in s.cache
    {
      var i :| 0 <= i < |tasks| && tasks[i].chunkCoord == coord && tasks[i].key == StoreKey(arr, coord);
      assert AsksFor(arr, ranges, selection.Some?, tasks[i]);
      TaskIsCached(cfg, s, i);
    }
  }

  lemma WantedAsk(arr: ZarrArray, selection: Option<Selection>)
    requires ValidWanted(arr, selection)
    ensures forall i :: 0 <= i < |WantedTasks(arr, selection)| ==>
              AsksFor(arr, WantedRanges(arr, selection), selection.Some?, WantedTasks(arr, selection)[i])
  {
    hide TasksFor, AsksFor, NormalizeSelection;
    TasksAreChunksMet(arr, WantedRanges(arr, selection), selection.Some?);
  }

  lemma WantedAreMet(arr: ZarrArray, selection: Option<Selection>)
    requires ValidWanted(arr, selection)
    ensures forall coord: Vec :: Meets(arr, WantedRanges(arr, selection), coord) ==>
              exists i :: 0 <= i < |WantedTasks(arr, selection)| && WantedTasks(arr, selection)[i].chunkCoord == coord
                          && WantedTasks(arr, selection)[i].key == StoreKey(arr, coord)
  {
    hide TasksFor, Meets, StoreKey, NormalizeSelection, MayUseRange;
    var ranges, tasks := WantedRanges(arr, selection), WantedTasks(arr, selection);
    TasksAreChunksMet(arr, ranges, selection.Some?);
    forall coord: Vec | Meets(arr, ranges, coord)
      ensures exists i :: 0 <= i < |tasks| && tasks[i].chunkCoord == coord && tasks[i].key == StoreKey(arr, coord)
    {
      assert TaskOfChunk(arr, ranges, selection.Some?, coord);
      var i :| 0 <= i < |tasks| && tasks[i].chunkCoord == coord;
      assert AsksFor(arr, ranges, selection.Some?, tasks[i]);
    }
  }

  /**
   Read a selection, or the whole array: load its chunks in any interleaving, reassemble them, and
   leave a cache that later reads may use. If a load fails, its first error is reported.
   */
  method Get(arr: ZarrArray, store: Store, selection: Option<Selection>, o: LoadOptions, cache: map<string, Bytes>)
    returns (r: GetResult, s: State)
    requires ValidWanted(arr, selection) && ValidStore(arr, store) && Coherent(arr, store, cache) && o.concurrency >= 1
    ensures Loaded(arr, store, selection, o, cache, s) && Coherent(arr, store, s.cache) && |s.runs| == 1
    ensures if s.runs[0].failed then s.runs[0].firstError.Some? && r == LoadFailed(s.runs[0].firstError.value)
            else r == Got(WantedValues(arr, store, selection))
    ensures r.Got? ==> (selection.Some? ==> |selection.value| == |arr.shape|) && HoldsWanted(arr, store, selection, r.values)
    ensures r.Got? && o.strict ==> NoneMissing(arr, store, selection)
    ensures r.Got? && o.cached ==> WholeChunksCached(arr, store, selection, s.cache)
    ensures r.LoadFailed? ==>
              && r.job < |WantedTasks(arr, selection)| == |s.phases|
              && (HasOutcome(s.phases[r.job], Failed) || (o.strict && WantedTasks(arr, selection)[r.job].key !in store))
  {
    hide WantedTasks, ValidWanted, WantedValues, ValidStore, Coherent, Inv, ValidConfig, CacheOk, Reaches, Complete, RangeFits, HoldsWanted, NoneMissing, WholeChunksCached;
    WantedRank(arr, selection);
    var tasks := RequestTasks(arr, selection);
    RequestsFit(arr, store, selection);
    OneRunIsValid(arr, store, tasks, o);
    CoherentIsCacheOk(arr, store, selection, o, cache);
    s := RunToEnd(OneRun(arr, store, tasks, o), o.capacity, cache);
    LoadedFacts(arr, store, selection, o, cache, s);
    LoadKeepsCoherent(arr, store, selection, o, cache, s);
    if s.runs[0].failed {
      ErrorHasCause(OneRun(arr, store, tasks, o), s, 0);
      JobCount(OneRun(arr, store, tasks, o), s);
      return LoadFailed(s.runs[0].firstError.value), s;
    }
    assert tasks[0..|tasks|] == tasks;
    WantedIsHeld(arr, store, selection);
    if o.strict {
      StrictSuccess(arr, store, selection, o, cache, s);
    }
    if o.cached {
      LoadCaches(arr, store, selection, o, cache, s);
    }
    var output := ReadFromRun(OneRun(arr, store, tasks, o), s, 0, arr, selection, ChunksOf(s.runs[0].log));
    return Got(output[..]), s;
  }

  lemma WantedRank(arr: ZarrArray, selection: Option<Selection>)
    requires ValidWanted(arr, selection)
    ensures selection.Some? ==> |selection.value| == |arr.shape|
  {
  }

  lemma JobCount(cfg: Config, s: State)
    requires Inv(cfg, s)
    ensures |s.phases| == |cfg.jobs|
  {
  }

  lemma RequestsFit(arr: ZarrArray, store: Store, selection: Option<Selection>)
    requires ValidWanted(arr, selection) && ValidStore(arr, store)
    ensures forall i :: 0 <= i < |WantedTasks(arr, selection)| ==> RangeFits(store, WantedTasks(arr, selection)[i])
  {
    hide TasksFor, RangeFits, ValidStore, NormalizeSelection;
    forall i | 0 <= i < |WantedTasks(arr, selection)| ensures RangeFits(store, WantedTasks(arr, selection)[i]) {
      TasksFit(arr, store, WantedRanges(arr, selection), selection.Some?, i);
    }
  }
}
