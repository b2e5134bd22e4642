/**
 The disk-backed store as a step machine: any number of concurrent `get` and `clearCache` calls,
 where a step is the code between two awaits. The backend is immutable and may fail.
 */
module DiskTier {
  import opened Vectors
  import opened ArrayModel

  datatype Config = Config(backend: Store, skipLocal: bool)

  /** One `fetchAndCache` call. */
  datatype Fetch =
    | Fetching(key: string)
    | Writing(key: string, data: Bytes)
    | Resolved(key: string, value: Option<Bytes>)
    | Rejected(key: string)

  /** One `get` call: passed through, reading the disk, awaiting its own fetch or another's, or finished. */
  datatype Get =
    | Direct(key: string)
    | Reading(key: string)
    | Owner(key: string, fetch: nat)
    | Joined(key: string, fetch: nat)
    | Returned(key: string, value: Option<Bytes>)
    | Threw(key: string)

  /** One `clearCache` call. */
  datatype Clear = Draining(snapshot: set<nat>) | Removing | Cleared(removed: bool)

  datatype State = State(
    closed: bool, inflight: map<string, nat>, disk: map<string, Bytes>,
    fetches: seq<Fetch>, gets: seq<Get>, clears: seq<Clear>)

  function OnBackend(cfg: Config, key: string): Option<Bytes> {
    if key in cfg.backend then Some(cfg.backend[key]) else None
  }

  predicate EndsWith(s: string, suffix: string) {
    |s| >= |suffix| && s[|s| - |suffix|..] == suffix
  }

  predicate IsMetadataKey(key: string) {
    EndsWith(key, ".zarray") || EndsWith(key, ".zattrs") || EndsWith(key, ".zgroup") || EndsWith(key, ".zmetadata")
  }

  predicate Settled(f: Fetch) { f.Resolved? || f.Rejected? }

  predicate Unsettled(f: Fetch) { f.Fetching? || f.Writing? }

  datatype Step =
    | CallGet(key: string)
    | BackendAnswers(get: nat, ok: bool)
    | DiskAnswers(get: nat, hit: bool)
    | FetchAnswers(fetch: nat, ok: bool)
    | WriteEnds(fetch: nat, stored: bool)
    | FetchReturns(get: nat)
    | EvictFile(key: string)
    | CallClear
    | StartRemove(clear: nat)
    | RemoveEnds(clear: nat, ok: bool)

  predicate Enabled(s: State, step: Step) {
    match step
    case CallGet(_) => true
    case BackendAnswers(g, _) => g < |s.gets| && s.gets[g].Direct?
    case DiskAnswers(g, hit) => g < |s.gets| && s.gets[g].Reading? && (hit ==> s.gets[g].key in s.disk)
    case FetchAnswers(f, _) => f < |s.fetches| && s.fetches[f].Fetching?
    case WriteEnds(f, _) => f < |s.fetches| && s.fetches[f].Writing?
    case FetchReturns(g) =>
      && g < |s.gets| && (s.gets[g].Owner? || s.gets[g].Joined?)
      && s.gets[g].fetch < |s.fetches| && Settled(s.fetches[s.gets[g].fetch])
    case EvictFile(key) => key in s.disk
    case CallClear => true
    case StartRemove(c) =>
      && c < |s.clears| && s.clears[c].Draining?
      && forall f :: f in s.clears[c].snapshot ==> f < |s.fetches| && Settled(s.fetches[f])
    case RemoveEnds(c, _) => c < |s.clears| && s.clears[c].Removing?
  }

  function Answer(key: string, value: Option<Bytes>, ok: bool): Get {
    if ok then Returned(key, value) else Threw(key)
  }

  function ApplyGet(cfg: Config, s: State, key: string): State {
    s.(gets := s.gets + [if s.closed || IsMetadataKey(key) || cfg.skipLocal then Direct(key) else Reading(key)])
  }

  /** After the disk lookup: a hit, a fetch already in flight for the key, or a new one. */
  function ApplyDisk(s: State, g: nat, hit: bool): State
    requires g < |s.gets| && (hit ==> s.gets[g].key in s.disk)
  {
    var key := s.gets[g].key;
    if hit then s.(gets := s.gets[g := Returned(key, Some(s.disk[key]))])
    else if key in s.inflight then s.(gets := s.gets[g := Joined(key, s.inflight[key])])
    else
      s.(gets := s.gets[g := Owner(key, |s.fetches|)],
         fetches := s.fetches + [Fetching(key)],
         inflight := s.inflight[key := |s.fetches|])
  }

  /** The backend answered a fetch: only present data is written, and only while the store is open. */
  function ApplyFetch(cfg: Config, s: State, f: nat, ok: bool): State
    requires f < |s.fetches|
  {
    var key := s.fetches[f].key;
    var value := OnBackend(cfg, key);
    s.(fetches := s.fetches[f :=
      if !ok then Rejected(key)
      else if value.Some? && !s.closed then Writing(key, value.value)
      else Resolved(key, value)])
  }

  /** A disk write ends; a failed one is ignored. */
  function ApplyWrite(s: State, f: nat, stored: bool): State
    requires f < |s.fetches| && s.fetches[f].Writing?
  {
    var key, data := s.fetches[f].key, s.fetches[f].data;
    s.(fetches := s.fetches[f := Resolved(key, Some(data))], disk := if stored then s.disk[key := data] else s.disk)
  }

  /** A get resumes with its fetch; the one that started it drops the in-flight entry of its key. */
  function ApplyReturn(s: State, g: nat): State
    requires g < |s.gets| && (s.gets[g].Owner? || s.gets[g].Joined?) && s.gets[g].fetch < |s.fetches|
  {
    var fetch := s.fetches[s.gets[g].fetch];
    var key := s.gets[g].key;
    var done := if fetch.Resolved? then Returned(key, fetch.value) else Threw(key);
    s.(gets := s.gets[g := done], inflight := if s.gets[g].Owner? then s.inflight - {key} else s.inflight)
  }

  function Apply(cfg: Config, s: State, step: Step): State
    requires Enabled(s, step)
  {
    match step
    case CallGet(key) => ApplyGet(cfg, s, key)
    case BackendAnswers(g, ok) => s.(gets := s.gets[g := Answer(s.gets[g].key, OnBackend(cfg, s.gets[g].key), ok)])
    case DiskAnswers(g, hit) => ApplyDisk(s, g, hit)
    case FetchAnswers(f, ok) => ApplyFetch(cfg, s, f, ok)
    case WriteEnds(f, stored) => ApplyWrite(s, f, stored)
    case FetchReturns(g) => ApplyReturn(s, g)
    case EvictFile(key) => s.(disk := s.disk - {key})
    case CallClear => s.(closed := true, clears := s.clears + [Draining(s.inflight.Values)])
    case StartRemove(c) => s.(clears := s.clears[c := Removing])
    case RemoveEnds(c, ok) => s.(clears := s.clears[c := Cleared(ok)], disk := if ok then map[] else s.disk)
  }

  function Initial(disk: map<string, Bytes>): State {
    State(false, map[], disk, [], [], [])
  }

  // ---------------------------------------------------------------- invariants

  /** Whatever was read, written or returned is what the backend holds. */
  ghost predicate Truthful(cfg: Config, s: State) {
    && (forall key :: key in s.disk ==> OnBackend(cfg, key) == Some(s.disk[key]))
    && (forall f :: 0 <= f < |s.fetches| && s.fetches[f].Writing? ==> OnBackend(cfg, s.fetches[f].key) == Some(s.fetches[f].data))
    && (forall f :: 0 <= f < |s.fetches| && s.fetches[f].Resolved? ==> s.fetches[f].value == OnBackend(cfg, s.fetches[f].key))
    && (forall g :: 0 <= g < |s.gets| && s.gets[g].Returned? ==> s.gets[g].value == OnBackend(cfg, s.gets[g].key))
  }

  /** The get `g` started the fetch that is in flight for `key`. */
  ghost predicate Owns(s: State, g: int, key: string) {
    && 0 <= g < |s.gets| && s.gets[g].Owner? && s.gets[g].key == key
    && key in s.inflight && s.inflight[key] == s.gets[g].fetch
  }

  /** The in-flight map: an entry per unsettled fetch, each with one owner, removed by nobody else. */
  ghost predicate InflightOk(s: State) {
    && (forall key :: key in s.inflight ==> s.inflight[key] < |s.fetches| && s.fetches[s.inflight[key]].key == key)
    && (forall f :: 0 <= f < |s.fetches| && Unsettled(s.fetches[f]) ==>
          s.fetches[f].key in s.inflight && s.inflight[s.fetches[f].key] == f)
  }

  ghost predicate OwnersOk(s: State) {
    && (forall key :: key in s.inflight ==> exists g :: Owns(s, g, key))
    && (forall g :: 0 <= g < |s.gets| && s.gets[g].Owner? ==> Owns(s, g, s.gets[g].key))
    && (forall g, h :: 0 <= g < h < |s.gets| && s.gets[g].Owner? && s.gets[h].Owner? ==> s.gets[g].key != s.gets[h].key)
    && (forall g :: 0 <= g < |s.gets| && (s.gets[g].Owner? || s.gets[g].Joined?) ==>
          s.gets[g].fetch < |s.fetches| && s.fetches[s.gets[g].fetch].key == s.gets[g].key)
  }

  /** Once closed nothing new is written; once a removal starts nothing is being written. */
  ghost predicate ClosedOk(s: State) {
    && (s.clears != [] ==> s.closed)
    && (forall c, f :: 0 <= c < |s.clears| && 0 <= f < |s.fetches| && s.fetches[f].Writing? ==>
          s.clears[c].Draining? && f in s.clears[c].snapshot)
    && (forall c :: 0 <= c < |s.clears| && s.clears[c].Draining? ==>
          forall f :: f in s.clears[c].snapshot ==> f < |s.fetches|)
    && (forall c :: 0 <= c < |s.clears| && s.clears[c] == Cleared(true) ==> s.disk == map[])
  }

  ghost predicate Inv(cfg: Config, s: State) {
    Truthful(cfg, s) && InflightOk(s) && OwnersOk(s) && ClosedOk(s)
  }

  lemma InitialHolds(cfg: Config, disk: map<string, Bytes>)
    requires forall key :: key in disk ==> OnBackend(cfg, key) == Some(disk[key])
    ensures Inv(cfg, Initial(disk))
  {
  }

  lemma ReturnKeepsTruth(cfg: Config, s: State, g: nat)
    requires Truthful(cfg, s) && OwnersOk(s) && Enabled(s, FetchReturns(g))
    ensures Truthful(cfg, ApplyReturn(s, g))
  {
    hide OnBackend, Owns;
  }

  lemma StepKeepsTruth(cfg: Config, s: State, step: Step)
    requires Inv(cfg, s) && Enabled(s, step)
    ensures Truthful(cfg, Apply(cfg, s, step))
  {
    hide InflightOk, ClosedOk, OwnersOk, IsMetadataKey, ApplyReturn;
    if step.FetchReturns? {
      ReturnKeepsTruth(cfg, s, step.get);
    }
  }

  lemma ReturnKeepsInflight(s: State, g: nat)
    requires InflightOk(s) && OwnersOk(s) && Enabled(s, FetchReturns(g))
    ensures InflightOk(ApplyReturn(s, g))
  {
    if s.gets[g].Owner? {
      assert Owns(s, g, s.gets[g].key);
    }
  }

  lemma DiskKeepsInflight(s: State, g: nat, hit: bool)
    requires InflightOk(s) && Enabled(s, DiskAnswers(g, hit))
    ensures InflightOk(ApplyDisk(s, g, hit))
  {
  }

  lemma FetchKeepsInflight(cfg: Config, s: State, f: nat, ok: bool)
    requires InflightOk(s) && Enabled(s, FetchAnswers(f, ok))
    ensures InflightOk(ApplyFetch(cfg, s, f, ok))
  {
    hide OnBackend;
  }

  lemma StepKeepsInflight(cfg: Config, s: State, step: Step)
    requires Inv(cfg, s) && Enabled(s, step)
    ensures InflightOk(Apply(cfg, s, step))
  {
    hide Truthful, ClosedOk, OwnersOk, IsMetadataKey, OnBackend, ApplyReturn, ApplyDisk, ApplyFetch;
    match step
    case FetchReturns(g) => ReturnKeepsInflight(s, g);
    case DiskAnswers(g, hit) => DiskKeepsInflight(s, g, hit);
    case FetchAnswers(f, ok) => FetchKeepsInflight(cfg, s, f, ok);
    case _ =>
  }

  /** What `OwnersOk` says of one in-flight key. */
  lemma OwnerOf(s: State, key: string) returns (g: nat)
    requires OwnersOk(s) && key in s.inflight
    ensures Owns(s, g, key)
  {
    g :| Owns(s, g, key);
  }

  ghost predicate FetchKeyOk(s: State, g: int)
    requires 0 <= g < |s.gets|
  {
    s.gets[g].Owner? || s.gets[g].Joined? ==>
      s.gets[g].fetch < |s.fetches| && s.fetches[s.gets[g].fetch].key == s.gets[g].key
  }

  /** Nothing changes for owners while the in-flight map and the owning gets stay. */
  lemma FrameOwners(s: State, t: State)
    requires OwnersOk(s) && t.inflight == s.inflight && |s.gets| <= |t.gets|
    requires forall g :: 0 <= g < |s.gets| && s.gets[g].Owner? ==> t.gets[g] == s.gets[g]
    requires forall g :: 0 <= g < |t.gets| && t.gets[g].Owner? ==> g < |s.gets| && t.gets[g] == s.gets[g]
    requires forall g :: 0 <= g < |t.gets| ==> FetchKeyOk(t, g)
    ensures OwnersOk(t)
  {
    forall h | 0 <= h < |t.gets| && (t.gets[h].Owner? || t.gets[h].Joined?)
      ensures t.gets[h].fetch < |t.fetches| && t.fetches[t.gets[h].fetch].key == t.gets[h].key
    {
      assert FetchKeyOk(t, h);
    }
    forall k | k in t.inflight ensures exists h :: Owns(t, h, k) {
      var h := OwnerOf(s, k);
      assert Owns(t, h, k);
    }
    forall h | 0 <= h < |t.gets| && t.gets[h].Owner? ensures Owns(t, h, t.gets[h].key) {
      assert Owns(s, h, s.gets[h].key);
    }
  }

  lemma CallKeepsOwners(cfg: Config, s: State, key: string)
    requires OwnersOk(s)
    ensures OwnersOk(ApplyGet(cfg, s, key))
  {
    hide IsMetadataKey, Owns;
    FrameOwners(s, ApplyGet(cfg, s, key));
  }

  lemma NoFetchKeepsOwners(s: State, g: nat, hit: bool)
    requires OwnersOk(s) && InflightOk(s) && Enabled(s, DiskAnswers(g, hit)) && (hit || s.gets[g].key in s.inflight)
    ensures OwnersOk(ApplyDisk(s, g, hit))
  {
    hide Owns;
    FrameOwners(s, ApplyDisk(s, g, hit));
  }

  lemma OwnerKeysInFlight(s: State)
    requires OwnersOk(s)
    ensures forall h :: 0 <= h < |s.gets| && s.gets[h].Owner? ==> s.gets[h].key in s.inflight
  {
    forall h | 0 <= h < |s.gets| && s.gets[h].Owner? ensures s.gets[h].key in s.inflight {
      assert Owns(s, h, s.gets[h].key);
    }
  }

  lemma NewFetchHasOwner(s: State, g: nat)
    requires OwnersOk(s) && Enabled(s, DiskAnswers(g, false)) && s.gets[g].key !in s.inflight
    ensures var t := ApplyDisk(s, g, false);
            forall k :: k in t.inflight ==> exists h :: Owns(t, h, k)
  {
    var t := ApplyDisk(s, g, false);
    forall k | k in t.inflight ensures exists h :: Owns(t, h, k) {
      if k in s.inflight {
        var h := OwnerOf(s, k);
        assert Owns(t, h, k);
      } else {
        assert Owns(t, g, k);
      }
    }
  }

  lemma NewFetchKeepsOwners(s: State, g: nat)
    requires OwnersOk(s) && Enabled(s, DiskAnswers(g, false)) && s.gets[g].key !in s.inflight
    ensures OwnersOk(ApplyDisk(s, g, false))
  {
    var t := ApplyDisk(s, g, false);
    NewFetchHasOwner(s, g);
    OwnerKeysInFlight(s);
    NewFetchIsOwned(s, g);
    hide Owns;
  }

  lemma NewFetchIsOwned(s: State, g: nat)
    requires OwnersOk(s) && Enabled(s, DiskAnswers(g, false)) && s.gets[g].key !in s.inflight
    ensures var t := ApplyDisk(s, g, false);
            forall h :: 0 <= h < |t.gets| && t.gets[h].Owner? ==> Owns(t, h, t.gets[h].key)
  {
    var t := ApplyDisk(s, g, false);
    forall h | 0 <= h < |t.gets| && t.gets[h].Owner? ensures Owns(t, h, t.gets[h].key) {
      assert h != g ==> Owns(s, h, s.gets[h].key);
    }
  }

  lemma ReturnKeepsOwners(s: State, g: nat)
    requires OwnersOk(s) && Enabled(s, FetchReturns(g))
    ensures OwnersOk(ApplyReturn(s, g))
  {
    var t := ApplyReturn(s, g);
    forall k | k in t.inflight ensures exists h :: Owns(t, h, k) {
      var h := OwnerOf(s, k);
      assert Owns(t, h, k);
    }
    forall h | 0 <= h < |t.gets| && t.gets[h].Owner? ensures Owns(t, h, t.gets[h].key) {
      assert Owns(s, h, s.gets[h].key);
    }
  }

  lemma OtherKeepsOwners(cfg: Config, s: State, step: Step)
    requires OwnersOk(s) && Enabled(s, step) && !step.CallGet? && !step.DiskAnswers? && !step.FetchReturns?
    ensures OwnersOk(Apply(cfg, s, step))
  {
    hide OnBackend, Owns;
    FrameOwners(s, Apply(cfg, s, step));
  }

  lemma StepKeepsOwners(cfg: Config, s: State, step: Step)
    requires Inv(cfg, s) && Enabled(s, step)
    ensures OwnersOk(Apply(cfg, s, step))
  {
    hide Truthful, ClosedOk, OwnersOk, ApplyGet, ApplyDisk, ApplyReturn, ApplyFetch, ApplyWrite;
    match step
    case CallGet(key) => CallKeepsOwners(cfg, s, key);
    case DiskAnswers(g, hit) =>
      if hit || s.gets[g].key in s.inflight {
        NoFetchKeepsOwners(s, g, hit);
      } else {
        NewFetchKeepsOwners(s, g);
      }
    case FetchReturns(g) => ReturnKeepsOwners(s, g);
    case _ => OtherKeepsOwners(cfg, s, step);
  }

  lemma StepKeepsClosed(cfg: Config, s: State, step: Step)
    requires Inv(cfg, s) && Enabled(s, step)
    ensures ClosedOk(Apply(cfg, s, step))
  {
    hide Truthful, OwnersOk, IsMetadataKey, OnBackend, Owns;
  }

  lemma StepKeepsInv(cfg: Config, s: State, step: Step)
    requires Inv(cfg, s) && Enabled(s, step)
    ensures Inv(cfg, Apply(cfg, s, step))
  {
    hide Truthful, InflightOk, OwnersOk, ClosedOk, Apply;
    StepKeepsTruth(cfg, s, step);
    StepKeepsInflight(cfg, s, step);
    StepKeepsOwners(cfg, s, step);
    StepKeepsClosed(cfg, s, step);
  }

  ghost predicate Executes(cfg: Config, s: State, steps: seq<Step>, t: State)
    decreases |steps|
  {
    if steps == [] then s == t
    else Enabled(s, steps[0]) && Executes(cfg, Apply(cfg, s, steps[0]), steps[1..], t)
  }

  /** Every state of every interleaving satisfies the invariant. */
  lemma {:induction false} RunsKeepInv(cfg: Config, s: State, steps: seq<Step>, t: State)
    requires Inv(cfg, s) && Executes(cfg, s, steps, t)
    ensures Inv(cfg, t)
    decreases |steps|
  {
    hide Inv, Apply, Enabled;
    if steps != [] {
      StepKeepsInv(cfg, s, steps[0]);
      RunsKeepInv(cfg, Apply(cfg, s, steps[0]), steps[1..], t);
    }
  }

  // ----------------------------------------------------------------- theorems

  /** At most one caching fetch per key is under way. */
  lemma OneFetchPerKey(cfg: Config, s: State, f: nat, h: nat)
    requires Inv(cfg, s) && f < |s.fetches| && h < |s.fetches|
    requires Unsettled(s.fetches[f]) && Unsettled(s.fetches[h]) && s.fetches[f].key == s.fetches[h].key
    ensures f == h
  {
    hide Truthful, OwnersOk, ClosedOk;
  }

  /** A returning get removes its own in-flight entry, whose fetch has settled, and no other. */
  lemma FinallyRemovesOwnEntry(cfg: Config, s: State, g: nat)
    requires Inv(cfg, s) && Enabled(s, FetchReturns(g))
    ensures var t := Apply(cfg, s, FetchReturns(g));
            if s.gets[g].Owner? then
              s.gets[g].key in s.inflight && s.inflight[s.gets[g].key] == s.gets[g].fetch && t.inflight == s.inflight - {s.gets[g].key}
            else t.inflight == s.inflight
  {
    hide Truthful, InflightOk, ClosedOk;
    if s.gets[g].Owner? {
      assert Owns(s, g, s.gets[g].key);
    }
  }

  /** A get returns what the backend holds under its key. */
  lemma GetReturnsBackendValue(cfg: Config, s: State, g: nat)
    requires Inv(cfg, s) && g < |s.gets| && s.gets[g].Returned?
    ensures s.gets[g].value == if s.gets[g].key in cfg.backend then Some(cfg.backend[s.gets[g].key]) else None
  {
  }

  /** So does a fetch. */
  lemma FetchHoldsBackendValue(cfg: Config, s: State, f: nat)
    requires Inv(cfg, s) && f < |s.fetches| && s.fetches[f].Resolved?
    ensures s.fetches[f].value == if s.fetches[f].key in cfg.backend then Some(cfg.backend[s.fetches[f].key]) else None
  {
  }

  lemma AwaitedFetch(cfg: Config, s: State, g: nat)
    requires Inv(cfg, s) && Enabled(s, FetchReturns(g))
    ensures s.fetches[s.gets[g].fetch].key == s.gets[g].key
  {
    hide Truthful, InflightOk, ClosedOk, Owns;
  }

  predicate RemovalStarted(s: State) {
    exists c :: 0 <= c < |s.clears| && !s.clears[c].Draining?
  }

  /** No disk write begins after the store is closed, and none is under way once a removal has started. */
  lemma NoWriteAfterRemoval(cfg: Config, s: State, step: Step)
    requires Inv(cfg, s) && Enabled(s, step) && RemovalStarted(s)
    ensures !step.WriteEnds? && RemovalStarted(Apply(cfg, s, step))
    ensures forall f :: 0 <= f < |Apply(cfg, s, step).fetches| ==> !Apply(cfg, s, step).fetches[f].Writing?
    ensures Apply(cfg, s, step).disk.Keys <= s.disk.Keys
  {
    hide Truthful, InflightOk, OwnersOk, OnBackend, IsMetadataKey;
    var c :| 0 <= c < |s.clears| && !s.clears[c].Draining?;
    assert !Apply(cfg, s, step).clears[c].Draining?;
  }

  /** Over every continuation: after a removal has started the disk only shrinks, so a removed directory stays gone. */
  lemma {:induction false} RemovedStaysGone(cfg: Config, s: State, steps: seq<Step>, t: State)
    requires Inv(cfg, s) && Executes(cfg, s, steps, t) && RemovalStarted(s)
    ensures RemovalStarted(t) && t.disk.Keys <= s.disk.Keys
    decreases |steps|
  {
    hide Inv, Apply, Enabled, RemovalStarted;
    if steps != [] {
      NoWriteAfterRemoval(cfg, s, steps[0]);
      StepKeepsInv(cfg, s, steps[0]);
      RemovedStaysGone(cfg, Apply(cfg, s, steps[0]), steps[1..], t);
    }
  }

  /** No call is stuck: a waiting get or clear, or a fetch it waits for, has its next step. */
  lemma CallsAreNeverStuck(cfg: Config, s: State)
    requires Inv(cfg, s)
    ensures forall g :: 0 <= g < |s.gets| && (s.gets[g].Owner? || s.gets[g].Joined?) ==>
              Enabled(s, FetchReturns(g)) || Unsettled(s.fetches[s.gets[g].fetch])
    ensures forall f :: 0 <= f < |s.fetches| && Unsettled(s.fetches[f]) ==>
              Enabled(s, FetchAnswers(f, true)) || Enabled(s, WriteEnds(f, true))
    ensures forall c :: 0 <= c < |s.clears| && s.clears[c].Draining? ==>
              Enabled(s, StartRemove(c)) || exists f :: f in s.clears[c].snapshot && f < |s.fetches| && Unsettled(s.fetches[f])
  {
    hide Truthful, InflightOk;
  }

  // --------------------------------------------- what the events of a run explain

  /** The backend or the disk rejected nothing that this get depends on, unless it threw. */
  ghost predicate ThrowExplained(steps: seq<Step>, s: State, g: int)
    requires 0 <= g < |s.gets|
  {
    s.gets[g].Threw? ==>
      || BackendAnswers(g, false) in steps
      || exists f :: 0 <= f < |s.fetches| && FetchAnswers(f, false) in steps && s.fetches[f].key == s.gets[g].key
  }

  /** A fetch ends as the backend answered; present data has been written to disk, unless the store was closed. */
  ghost predicate FetchExplained(steps: seq<Step>, s: State, f: int)
    requires 0 <= f < |s.fetches|
  {
    match s.fetches[f]
    case Fetching(_) => true
    case Writing(_, _) => FetchAnswers(f, true) in steps
    case Rejected(_) => FetchAnswers(f, false) in steps
    case Resolved(_, value) =>
      && FetchAnswers(f, true) in steps
      && (value.Some? ==> WriteEnds(f, true) in steps || WriteEnds(f, false) in steps || CallClear in steps)
  }

  ghost predicate Explained(steps: seq<Step>, s: State) {
    && (s.closed <==> CallClear in steps)
    && (forall f :: 0 <= f < |s.fetches| ==> FetchExplained(steps, s, f))
    && (forall g :: 0 <= g < |s.gets| ==> ThrowExplained(steps, s, g))
  }

  lemma FetchStays(past: seq<Step>, s: State, step: Step, t: State, f: nat)
    requires f < |s.fetches| && f < |t.fetches| && t.fetches[f] == s.fetches[f] && FetchExplained(past, s, f)
    ensures FetchExplained(past + [step], t, f)
  {
    assert forall e :: e in past ==> e in past + [step];
  }

  /** The step that changes a fetch is the one that explains it. */
  lemma FetchNow(cfg: Config, past: seq<Step>, s: State, step: Step, f: nat)
    requires Explained(past, s) && Enabled(s, step) && f < |Apply(cfg, s, step).fetches|
    requires f < |s.fetches| ==> Apply(cfg, s, step).fetches[f] != s.fetches[f]
    ensures FetchExplained(past + [step], Apply(cfg, s, step), f)
  {
    hide OnBackend, IsMetadataKey, ThrowExplained;
    assert step in past + [step] && forall e :: e in past ==> e in past + [step];
    if f < |s.fetches| {
      assert FetchExplained(past, s, f);
    }
  }

  lemma FetchesExplained(cfg: Config, past: seq<Step>, s: State, step: Step)
    requires Explained(past, s) && Enabled(s, step)
    ensures var t := Apply(cfg, s, step);
            && (t.closed <==> CallClear in past + [step])
            && (forall f :: 0 <= f < |t.fetches| ==> FetchExplained(past + [step], t, f))
  {
    hide OnBackend, IsMetadataKey, ThrowExplained, FetchExplained;
    var t := Apply(cfg, s, step);
    forall f | 0 <= f < |t.fetches| ensures FetchExplained(past + [step], t, f) {
      if f < |s.fetches| && t.fetches[f] == s.fetches[f] {
        FetchStays(past, s, step, t, f);
      } else {
        FetchNow(cfg, past, s, step, f);
      }
    }
  }

  lemma KeysStay(cfg: Config, s: State, step: Step)
    requires Enabled(s, step)
    ensures var t := Apply(cfg, s, step);
            && |s.fetches| <= |t.fetches| && |s.gets| <= |t.gets|
            && (forall f :: 0 <= f < |s.fetches| ==> t.fetches[f].key == s.fetches[f].key)
            && (forall g :: 0 <= g < |s.gets| ==> t.gets[g].key == s.gets[g].key)
  {
    hide OnBackend, IsMetadataKey;
  }

  lemma ThrowStays(cfg: Config, past: seq<Step>, s: State, step: Step, g: nat)
    requires Enabled(s, step) && g < |s.gets| && ThrowExplained(past, s, g)
    requires Apply(cfg, s, step).gets[g] == s.gets[g]
    requires |s.fetches| <= |Apply(cfg, s, step).fetches| && |s.gets| <= |Apply(cfg, s, step).gets|
    requires forall f :: 0 <= f < |s.fetches| ==> Apply(cfg, s, step).fetches[f].key == s.fetches[f].key
    ensures ThrowExplained(past + [step], Apply(cfg, s, step), g)
  {
    hide Apply, Enabled;
    assert forall e :: e in past ==> e in past + [step];
  }

  lemma ThrowsExplained(cfg: Config, past: seq<Step>, s: State, step: Step, g: nat)
    requires Inv(cfg, s) && Explained(past, s) && Enabled(s, step) && g < |Apply(cfg, s, step).gets|
    ensures ThrowExplained(past + [step], Apply(cfg, s, step), g)
  {
    hide OnBackend, IsMetadataKey, Truthful, InflightOk, ClosedOk, Owns, ThrowExplained;
    var t := Apply(cfg, s, step);
    KeysStay(cfg, s, step);
    if g < |s.gets| && t.gets[g] == s.gets[g] {
      ThrowStays(cfg, past, s, step, g);
    } else {
      ThrowNow(cfg, past, s, step, g);
    }
  }

  /** The step that changes a get is the one that explains it. */
  lemma ThrowNow(cfg: Config, past: seq<Step>, s: State, step: Step, g: nat)
    requires OwnersOk(s) && Explained(past, s) && Enabled(s, step) && g < |Apply(cfg, s, step).gets|
    requires g < |s.gets| ==> Apply(cfg, s, step).gets[g] != s.gets[g]
    ensures ThrowExplained(past + [step], Apply(cfg, s, step), g)
  {
    hide OnBackend, IsMetadataKey, Owns;
    var t, more := Apply(cfg, s, step), past + [step];
    assert step in more && forall e :: e in past ==> e in more;
    if t.gets[g].Threw? && step.FetchReturns? {
      var f := s.gets[g].fetch;
      assert FetchExplained(past, s, f);
      assert t.fetches[f].key == t.gets[g].key && FetchAnswers(f, false) in more;
    }
  }

  lemma {:induction false} RunExplained(cfg: Config, past: seq<Step>, s: State, steps: seq<Step>, t: State)
    requires Inv(cfg, s) && Explained(past, s) && Executes(cfg, s, steps, t)
    ensures Explained(past + steps, t)
    decreases |steps|
  {
    hide Inv, Apply, Enabled, FetchExplained, ThrowExplained;
    if steps == [] {
      assert past + [] == past;
    } else {
      var next := Apply(cfg, s, steps[0]);
      StepKeepsInv(cfg, s, steps[0]);
      FetchesExplained(cfg, past, s, steps[0]);
      forall g | 0 <= g < |next.gets| ensures ThrowExplained(past + [steps[0]], next, g) {
        ThrowsExplained(cfg, past, s, steps[0], g);
      }
      RunExplained(cfg, past + [steps[0]], next, steps[1..], t);
      assert past + [steps[0]] + steps[1..] == past + steps;
    }
  }

  /**
   From a new store on: it is closed exactly once cleared, a get throws only where the backend
   rejected its key, a fetch resolves or rejects as the backend answered, and what it found has been
   written to disk unless the store was closed.
   */
  lemma EventsExplainRun(cfg: Config, disk: map<string, Bytes>, steps: seq<Step>, t: State)
    requires forall key :: key in disk ==> key in cfg.backend && cfg.backend[key] == disk[key]
    requires Executes(cfg, Initial(disk), steps, t)
    ensures Explained(steps, t)
  {
    hide Inv, Executes, FetchExplained, ThrowExplained;
    InitialHolds(cfg, disk);
    RunExplained(cfg, [], Initial(disk), steps, t);
    assert [] + steps == steps;
  }

  /** Something took the file away. */
  ghost predicate TakenAway(steps: seq<Step>, key: string) {
    EvictFile(key) in steps || exists c :: RemoveEnds(c, true) in steps
  }

  /** What is on disk stays there until it is evicted or the directory removed. */
  lemma {:induction false} DiskKeeps(cfg: Config, s: State, steps: seq<Step>, t: State, key: string)
    requires Executes(cfg, s, steps, t) && key in s.disk
    ensures key in t.disk || TakenAway(steps, key)
    decreases |steps|
  {
    hide Enabled, OnBackend, IsMetadataKey;
    if steps != [] {
      var next := Apply(cfg, s, steps[0]);
      assert steps == [steps[0]] + steps[1..];
      if key in next.disk {
        DiskKeeps(cfg, next, steps[1..], t, key);
      } else {
        StepTakes(cfg, s, steps[0], key);
      }
    }
  }

  lemma StepTakes(cfg: Config, s: State, step: Step, key: string)
    requires Enabled(s, step) && key in s.disk && key !in Apply(cfg, s, step).disk
    ensures step == EvictFile(key) || (step.RemoveEnds? && step.ok)
  {
    hide OnBackend, IsMetadataKey;
  }

  /** A stored write puts the fetched data on disk, where a later get may find it. */
  lemma WriteLands(cfg: Config, s: State, f: nat)
    requires Inv(cfg, s) && Enabled(s, WriteEnds(f, true))
    ensures var t, key := Apply(cfg, s, WriteEnds(f, true)), s.fetches[f].key;
            && key in cfg.backend && key in t.disk && t.disk[key] == cfg.backend[key]
            && t.fetches[f] == Resolved(key, Some(cfg.backend[key]))
  {
    hide InflightOk, OwnersOk, ClosedOk;
  }

  /** The key is that of metadata: it ends like one of the four metadata files. */
  ghost predicate NamesMetadata(key: string) {
    exists path: string :: key == path + ".zarray" || key == path + ".zattrs" || key == path + ".zgroup" || key == path + ".zmetadata"
  }

  lemma EndIsSuffix(key: string, suffix: string)
    ensures EndsWith(key, suffix) ==> key[..|key| - |suffix|] + suffix == key
    ensures forall path: string :: key == path + suffix ==> EndsWith(key, suffix)
  {
  }

  lemma MetadataBySuffix(key: string)
    ensures IsMetadataKey(key) <==> NamesMetadata(key)
  {
    hide EndsWith;
    EndIsSuffix(key, ".zarray");
    EndIsSuffix(key, ".zattrs");
    EndIsSuffix(key, ".zgroup");
    EndIsSuffix(key, ".zmetadata");
  }

  // ------------------------------------------------------------------ the class

  /** The store object; each method is the code of one stretch between two awaits. */
  class CachedStore {
    const cfg: Config
    var closed: bool
    var inflight: map<string, nat>
    var disk: map<string, Bytes>
    var fetches: seq<Fetch>
    var gets: seq<Get>
    var clears: seq<Clear>

    ghost function View(): State
      reads this
    {
      State(closed, inflight, disk, fetches, gets, clears)
    }

    ghost predicate Valid()
      reads this
    {
      Inv(cfg, View())
    }

    constructor (cfg: Config, disk: map<string, Bytes>)
      requires forall key :: key in disk ==> OnBackend(cfg, key) == Some(disk[key])
      ensures Valid() && this.cfg == cfg && View() == Initial(disk)
    {
      this.cfg, this.disk := cfg, disk;
      closed, inflight, fetches, gets, clears := false, map[], [], [], [];
      new;
      InitialHolds(cfg, disk);
    }

    /** `get` is called. */
    method Get(key: string) returns (g: nat)
      requires Valid()
      modifies this
      ensures Valid() && View() == Apply(cfg, old(View()), CallGet(key)) && g == |old(gets)|
      ensures gets == old(gets) + [if old(closed) || NamesMetadata(key) || cfg.skipLocal then Direct(key) else Reading(key)]
    {
      hide Inv, NamesMetadata;
      MetadataBySuffix(key);
      StepKeepsInv(cfg, View(), CallGet(key));
      g := |gets|;
      if closed || IsMetadataKey(key) || cfg.skipLocal {
        gets := gets + [Direct(key)];
      } else {
        gets := gets + [Reading(key)];
      }
    }

    /** `get` resumes with the answer of the disk. */
    method AfterDisk(g: nat, hit: bool)
      requires Valid() && Enabled(View(), DiskAnswers(g, hit))
      modifies this
      ensures Valid() && View() == Apply(cfg, old(View()), DiskAnswers(g, hit))
      ensures hit ==> gets == old(gets)[g := Returned(old(gets)[g].key, Some(old(disk)[old(gets)[g].key]))]
      ensures !hit && old(gets)[g].key in old(inflight) ==> gets[g] == Joined(old(gets)[g].key, old(inflight)[old(gets)[g].key])
      ensures hit || old(gets)[g].key in old(inflight) ==> fetches == old(fetches) && inflight == old(inflight)
      ensures !hit && old(gets)[g].key !in old(inflight) ==>
                && gets[g] == Owner(old(gets)[g].key, |old(fetches)|) && fetches == old(fetches) + [Fetching(old(gets)[g].key)]
                && inflight == old(inflight)[old(gets)[g].key := |old(fetches)|]
    {
      hide Inv;
      StepKeepsInv(cfg, View(), DiskAnswers(g, hit));
      var key := gets[g].key;
      if hit {
        gets := gets[g := Returned(key, Some(disk[key]))];
        return;
      }
      if key in inflight {
        gets := gets[g := Joined(key, inflight[key])];
        return;
      }
      var f := |fetches|;
      fetches := fetches + [Fetching(key)];
      inflight := inflight[key := f];
      gets := gets[g := Owner(key, f)];
    }

    /** `fetchAndCache` resumes with the answer of the backend. */
    method AfterBackend(f: nat, ok: bool)
      requires Valid() && Enabled(View(), FetchAnswers(f, ok))
      modifies this
      ensures Valid() && View() == Apply(cfg, old(View()), FetchAnswers(f, ok))
      ensures var key := old(fetches)[f].key;
              fetches == old(fetches)[f :=
                if !ok then Rejected(key)
                else if key !in cfg.backend then Resolved(key, None)
                else if old(closed) then Resolved(key, Some(cfg.backend[key]))
                else Writing(key, cfg.backend[key])]
    {
      hide Inv;
      StepKeepsInv(cfg, View(), FetchAnswers(f, ok));
      var key := fetches[f].key;
      if !ok {
        fetches := fetches[f := Rejected(key)];
        return;
      }
      var data := OnBackend(cfg, key);
      if data.Some? && !closed {
        fetches := fetches[f := Writing(key, data.value)];
      } else {
        fetches := fetches[f := Resolved(key, data)];
      }
    }

    /** `get` resumes with its fetch and runs its `finally`. */
    method AfterFetch(g: nat)
      requires Valid() && Enabled(View(), FetchReturns(g))
      modifies this
      ensures Valid() && View() == Apply(cfg, old(View()), FetchReturns(g))
      ensures var key, fetch := old(gets)[g].key, fetches[old(gets)[g].fetch];
              && fetches == old(fetches)
              && (fetch.Resolved? ==> gets[g] == Returned(key, if key in cfg.backend then Some(cfg.backend[key]) else None))
              && (fetch.Rejected? ==> gets[g] == Threw(key))
    {
      hide Inv;
      StepKeepsInv(cfg, View(), FetchReturns(g));
      AwaitedFetch(cfg, View(), g);
      if fetches[gets[g].fetch].Resolved? {
        FetchHoldsBackendValue(cfg, View(), gets[g].fetch);
      }
      var key, fetch := gets[g].key, fetches[gets[g].fetch];
      if gets[g].Owner? {
        inflight := inflight - {key};
      }
      gets := gets[g := if fetch.Resolved? then Returned(key, fetch.value) else Threw(key)];
    }

    /** `clearCache` closes the store first, then waits for the fetches in flight. */
    method ClearCache() returns (c: nat)
      requires Valid()
      modifies this
      ensures Valid() && View() == Apply(cfg, old(View()), CallClear) && c == |old(clears)|
      ensures closed && clears == old(clears) + [Draining(old(inflight).Values)]
    {
      hide Inv;
      StepKeepsInv(cfg, View(), CallClear);
      c := |clears|;
      closed := true;
      clears := clears + [Draining(inflight.Values)];
    }

    /** `clearCache` resumes: every fetch it waited for has settled, and the removal starts. */
    method AfterDrain(c: nat)
      requires Valid() && Enabled(View(), StartRemove(c))
      modifies this
      ensures Valid() && View() == Apply(cfg, old(View()), StartRemove(c)) && RemovalStarted(View())
    {
      hide Inv;
      StepKeepsInv(cfg, View(), StartRemove(c));
      clears := clears[c := Removing];
      assert !View().clears[c].Draining?;
    }

    /** A get that bypasses the cache resumes with the answer of the backend. */
    method AfterDirect(g: nat, ok: bool)
      requires Valid() && Enabled(View(), BackendAnswers(g, ok))
      modifies this
      ensures Valid() && View() == Apply(cfg, old(View()), BackendAnswers(g, ok))
      ensures var key := old(gets)[g].key;
              gets[g] == if !ok then Threw(key) else Returned(key, if key in cfg.backend then Some(cfg.backend[key]) else None)
    {
      hide Inv;
      StepKeepsInv(cfg, View(), BackendAnswers(g, ok));
      var key := gets[g].key;
      gets := gets[g := if ok then Returned(key, OnBackend(cfg, key)) else Threw(key)];
    }

    /** The disk write of a fetch ends. */
    method AfterWrite(f: nat, stored: bool)
      requires Valid() && Enabled(View(), WriteEnds(f, stored))
      modifies this
      ensures Valid() && View() == Apply(cfg, old(View()), WriteEnds(f, stored))
      ensures disk == if stored then old(disk)[old(fetches)[f].key := old(fetches)[f].data] else old(disk)
    {
      hide Inv;
      StepKeepsInv(cfg, View(), WriteEnds(f, stored));
      var key, data := fetches[f].key, fetches[f].data;
      if stored {
        disk := disk[key := data];
      }
      fetches := fetches[f := Resolved(key, Some(data))];
    }

    /** The removal of the directory ends. */
    method AfterRemoval(c: nat, ok: bool)
      requires Valid() && Enabled(View(), RemoveEnds(c, ok))
      modifies this
      ensures Valid() && View() == Apply(cfg, old(View()), RemoveEnds(c, ok))
      ensures ok ==> disk == map[]
    {
      hide Inv;
      StepKeepsInv(cfg, View(), RemoveEnds(c, ok));
      if ok {
        disk := map[];
      }
      clears := clears[c := Cleared(ok)];
    }
  }
}
