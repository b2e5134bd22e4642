/** What the registry guarantees over every interleaving of opens, builds, evictions, clears and teardowns. */
module RegistryRuns {
  import opened Vectors
  import opened Registry
  import opened RegistrySafety

  ghost predicate Executes(s: State, steps: seq<Step>, t: State, maxDatasets: nat)
    requires Inv(s, maxDatasets) && maxDatasets >= 1
    decreases |steps|
  {
    if steps == [] then s == t
    else
      && Enabled(s, steps[0])
      && (StepKeepsInv(s, steps[0], maxDatasets); Executes(Apply(s, steps[0], maxDatasets), steps[1..], t, maxDatasets))
  }

  /** Every reachable state satisfies the invariant; in particular the Map never exceeds its cap. */
  lemma {:induction false} RunsKeepInv(s: State, steps: seq<Step>, t: State, maxDatasets: nat)
    requires Inv(s, maxDatasets) && maxDatasets >= 1 && Executes(s, steps, t, maxDatasets)
    ensures Inv(t, maxDatasets) && |t.entries| <= maxDatasets
    decreases |steps|
  {
    hide Core, ClearsOk, Apply, Enabled, EntryHandles;
    if steps != [] {
      StepKeepsInv(s, steps[0], maxDatasets);
      RunsKeepInv(Apply(s, steps[0], maxDatasets), steps[1..], t, maxDatasets);
    }
  }

  /** No build of an id runs, and no handle of it is published or cached, while its directory is being removed. */
  lemma NoBuildDuringTeardown(s: State, maxDatasets: nat, t: nat)
    requires Inv(s, maxDatasets) && t < |s.torn| && !s.torn[t].settled
    ensures forall p :: 0 <= p < |s.promises| && Constructing(s.promises[p].phase) ==> s.promises[p].id != s.torn[t].id
    ensures !HasId(s.entries, s.torn[t].id)
  {
    hide EntriesOk, CachedOk, TornOk, TrackedOk, InflightOk, EarlyOk, ResultsOk, ClearsOk, HasId;
  }

  /** At most one teardown per id is pending, and it is the one a new open would wait for. */
  lemma OneTeardownPerId(s: State, maxDatasets: nat, t: nat, u: nat)
    requires Inv(s, maxDatasets) && t < |s.torn| && u < |s.torn| && !s.torn[t].settled && !s.torn[u].settled
    requires s.torn[t].id == s.torn[u].id
    ensures t == u && s.torn[t].id in s.teardowns && s.teardowns[s.torn[t].id] == t
  {
    hide EntriesOk, CachedOk, TornOk, ApartOk, InflightOk, EarlyOk, BuildsOk, ResultsOk, ClearsOk;
  }

  /** At most one store per id is building or cached: builds are unique, and exclude a cached handle. */
  lemma OneOpenStorePerId(s: State, maxDatasets: nat, p: nat)
    requires Inv(s, maxDatasets) && p < |s.promises| && Constructing(s.promises[p].phase)
    ensures forall q :: 0 <= q < |s.promises| && q != p && Constructing(s.promises[q].phase) ==> s.promises[q].id != s.promises[p].id
    ensures !HasId(s.entries, s.promises[p].id)
  {
    hide EntriesOk, CachedOk, TornOk, TrackedOk, ApartOk, BuildsOk, ResultsOk, ClearsOk, HasId;
  }

  /** Publishing inserts: it overwrites no handle of the Map. */
  lemma PublishOverwritesNothing(s: State, maxDatasets: nat, p: nat)
    requires Inv(s, maxDatasets) && Enabled(s, Publish(p))
    ensures Find(s.entries, s.promises[p].id).None?
    ensures s.handles[s.promises[p].phase.handle].status.Unpublished?
  {
    hide EntriesOk, CachedOk, TornOk, TrackedOk, ApartOk, BuildsOk, InflightOk, ClearsOk, HasId, Find;
    FindMeaning(s.entries, s.promises[p].id);
  }

  /**
   After a build completes the Map holds at most `maxDatasets` handles, the newest of which is the
   one just opened, and what was evicted was last used before everything that stayed.
   */
  lemma PublishEvictsLeastRecent(s: State, maxDatasets: nat, p: nat)
    requires Inv(s, maxDatasets) && maxDatasets >= 1 && Enabled(s, Publish(p)) && EntryHandles(s)
    ensures var t, h := ApplyPublish(s, p, maxDatasets), s.promises[p].phase.handle;
            var all := s.entries + [Entry(s.promises[p].id, h, s.clock)];
            && |t.entries| <= maxDatasets
            && t.entries == (if |all| > maxDatasets then all[|all| - maxDatasets..] else all)
            && t.entries != [] && t.entries[|t.entries| - 1].handle == h
            && (forall a, b :: 0 <= a < |all| - |t.entries| && 0 <= b < |t.entries| ==> all[a].used < t.entries[b].used)
  {
    hide Core, ClearsOk, Evict, Advances;
    InsertKeeps(s, p);
    EvictKeeps(Insert(s, p, s.promises[p].phase.handle), maxDatasets);
    OrderOf(Insert(s, p, s.promises[p].phase.handle));
  }

  lemma OrderOf(s: State)
    requires Core(s)
    ensures forall a, b :: 0 <= a < b < |s.entries| ==> s.entries[a].used < s.entries[b].used
  {
  }

  /** A handle that was published and is no longer cached has been disposed, and exactly once. */
  lemma DisposedExactlyOnce(s: State, maxDatasets: nat, h: nat)
    requires Inv(s, maxDatasets) && h < |s.handles| && !s.handles[h].status.Unpublished?
    ensures HasHandle(s.entries, h) <==> forall t :: 0 <= t < |s.torn| ==> s.torn[t].handle != h
    ensures forall t, u :: 0 <= t < |s.torn| && 0 <= u < |s.torn| && s.torn[t].handle == h && s.torn[u].handle == h ==> t == u
  {
    hide TrackedOk, ApartOk, InflightOk, EarlyOk, BuildsOk, ResultsOk, ClearsOk;
  }

  ghost predicate TornDown(s: State, h: nat) {
    && h < |s.handles| && s.handles[h].status.Torn?
    && s.handles[h].status.teardown < |s.torn| && s.torn[s.handles[h].status.teardown].settled
  }

  /**
   When a clear resolves, every handle that existed at the call, and every handle made by an open
   in flight at the call, has finished its teardown.
   */
  lemma ClearTearsDownAll(s: State, maxDatasets: nat, c: nat)
    requires Inv(s, maxDatasets) && c < |s.clears| && s.clears[c].phase.Resolved?
    ensures forall h :: 0 <= h < s.clears[c].handlesAtCall ==> TornDown(s, h)
    ensures s.clears[c].promisesAtCall <= |s.promises|
    ensures forall p :: 0 <= p < s.clears[c].promisesAtCall ==> s.promises[p].phase.Gone?
    ensures forall p :: 0 <= p < s.clears[c].promisesAtCall && s.promises[p].phase.result.Some? ==>
              TornDown(s, s.promises[p].phase.result.value)
  {
    hide Core;
    ClearOf(s, c);
  }

  // ------------------------------------------------ clears and opens, over a run

  lemma ClearStays(s: State, step: Step, maxDatasets: nat, c: nat)
    requires EntryHandles(s) && Enabled(s, step) && c < |s.clears|
    ensures var t := Apply(s, step, maxDatasets);
            && c < |t.clears| && t.clears[c].promisesAtCall == s.clears[c].promisesAtCall
            && t.clears[c].handlesAtCall == s.clears[c].handlesAtCall
  {
    hide Find, Indices;
    match step
    case Publish(p) => EvictKeepsClears(Insert(s, p, s.promises[p].phase.handle), maxDatasets);
    case Recheck(d) => EvictKeepsClears(s, 0);
    case _ =>
  }

  lemma {:induction false} EvictKeepsClears(s: State, keep: nat)
    requires EntryHandles(s)
    ensures Evict(s, keep).clears == s.clears
    decreases |s.entries|
  {
    if |s.entries| > keep {
      EvictKeepsClears(DisposeOldest(s), keep);
    }
  }

  lemma {:induction false} ClearStaysOver(s: State, steps: seq<Step>, t: State, maxDatasets: nat, c: nat)
    requires Inv(s, maxDatasets) && maxDatasets >= 1 && Executes(s, steps, t, maxDatasets) && c < |s.clears|
    ensures c < |t.clears| && t.clears[c].promisesAtCall == s.clears[c].promisesAtCall
    ensures t.clears[c].handlesAtCall == s.clears[c].handlesAtCall
    decreases |steps|
  {
    hide Core, ClearsOk, Apply, Enabled, EntryHandles;
    if steps != [] {
      StepKeepsInv(s, steps[0], maxDatasets);
      ClearStays(s, steps[0], maxDatasets, c);
      ClearStaysOver(Apply(s, steps[0], maxDatasets), steps[1..], t, maxDatasets, c);
    }
  }

  /**
   Once a clear that was called in `s` has resolved, whatever happened meanwhile, every handle there
   was and every open in flight at the call is through, and those handles are torn down.
   */
  lemma ClearedSinceCall(s: State, steps: seq<Step>, t: State, maxDatasets: nat)
    requires Inv(s, maxDatasets) && maxDatasets >= 1 && Executes(s, [CallClear] + steps, t, maxDatasets)
    ensures |s.clears| < |t.clears|
    ensures t.clears[|s.clears|].phase.Resolved? ==>
              && |s.promises| <= |t.promises|
              && (forall h :: 0 <= h < |s.handles| ==> TornDown(t, h))
              && (forall p :: 0 <= p < |s.promises| ==> t.promises[p].phase.Gone?)
              && (forall p :: 0 <= p < |s.promises| && t.promises[p].phase.result.Some? ==> TornDown(t, t.promises[p].phase.result.value))
  {
    hide Core, ClearsOk, EntryHandles, TornDown;
    var all, c := [CallClear] + steps, |s.clears|;
    assert all[0] == CallClear && all[1..] == steps;
    StepKeepsInv(s, CallClear, maxDatasets);
    var called := Apply(s, CallClear, maxDatasets);
    assert called.clears[c].promisesAtCall == |s.promises| && called.clears[c].handlesAtCall == |s.handles|;
    ClearStaysOver(called, steps, t, maxDatasets, c);
    RunsKeepInv(called, steps, t, maxDatasets);
    if t.clears[c].phase.Resolved? {
      ClearTearsDownAll(t, maxDatasets, c);
    }
  }

  /** An open that published a handle ends with it; one that ends without has published none. */
  lemma OpenEndsWithHandle(s: State, maxDatasets: nat, p: nat, h: nat)
    requires Inv(s, maxDatasets) && p < |s.promises| && h < |s.handles| && !s.handles[h].status.Unpublished?
    ensures s.promises[p].phase == Published(h) || s.promises[p].phase == Gone(Some(h)) <==> s.handles[h].maker == p
  {
    hide EntriesOk, CachedOk, TornOk, TrackedOk, ApartOk, InflightOk, EarlyOk, BuildsOk, ClearsOk;
  }

  /** An open has got no further than its build, and ends as its build ended. */
  ghost predicate BuildExplained(steps: seq<Step>, s: State, p: int)
    requires 0 <= p < |s.promises|
  {
    match s.promises[p].phase
    case AwaitTeardown(_) => true
    case Building => true
    case Built(_) => BuildEnds(p, true) in steps
    case Published(_) => BuildEnds(p, true) in steps
    case Failed => BuildEnds(p, false) in steps
    case Gone(result) => BuildEnds(p, result.Some?) in steps
  }

  ghost predicate BuildsExplained(steps: seq<Step>, s: State) {
    forall p :: 0 <= p < |s.promises| ==> BuildExplained(steps, s, p)
  }

  lemma {:induction false} EvictKeepsPromises(s: State, keep: nat)
    requires EntryHandles(s)
    ensures Evict(s, keep).promises == s.promises
    decreases |s.entries|
  {
    if |s.entries| > keep {
      EvictKeepsPromises(DisposeOldest(s), keep);
    }
  }

  lemma PromisesAfter(s: State, step: Step, maxDatasets: nat)
    requires EntryHandles(s) && Enabled(s, step)
    ensures var t := Apply(s, step, maxDatasets);
            && |s.promises| <= |t.promises|
            && (forall p :: 0 <= p < |t.promises| ==> PromiseMoves(s, step, p, t.promises[p].phase))
  {
    hide Find, Indices;
    match step
    case Publish(p) => EvictKeepsPromises(Insert(s, p, s.promises[p].phase.handle), maxDatasets);
    case Recheck(d) => EvictKeepsPromises(s, 0);
    case _ =>
  }

  /** How a step may move a promise. */
  ghost predicate PromiseMoves(s: State, step: Step, p: int, phase: Phase) {
    if 0 <= p < |s.promises| then
      || phase == s.promises[p].phase || phase == Building
      || (s.promises[p].phase.Built? && phase.Published?)
      || (s.promises[p].phase.Published? && phase.Gone? && phase.result.Some?)
      || (s.promises[p].phase.Failed? && phase == Gone(None))
      || (step == BuildEnds(p, true) && phase.Built?)
      || (step == BuildEnds(p, false) && phase == Failed)
    else phase.AwaitTeardown? || phase.Building?
  }

  lemma StepExplained(past: seq<Step>, s: State, step: Step, maxDatasets: nat)
    requires EntryHandles(s) && Enabled(s, step) && BuildsExplained(past, s)
    ensures BuildsExplained(past + [step], Apply(s, step, maxDatasets))
  {
    hide Apply, Enabled, EntryHandles;
    var t := Apply(s, step, maxDatasets);
    PromisesAfter(s, step, maxDatasets);
    assert forall e :: e in past + [step] <==> e in past || e == step;
    forall p | 0 <= p < |t.promises| ensures BuildExplained(past + [step], t, p) {
      assert PromiseMoves(s, step, p, t.promises[p].phase);
      assert p < |s.promises| ==> BuildExplained(past, s, p);
    }
  }

  lemma {:induction false} RunExplained(past: seq<Step>, s: State, steps: seq<Step>, t: State, maxDatasets: nat)
    requires Inv(s, maxDatasets) && maxDatasets >= 1 && Executes(s, steps, t, maxDatasets) && BuildsExplained(past, s)
    ensures BuildsExplained(past + steps, t)
    decreases |steps|
  {
    hide Core, ClearsOk, Apply, Enabled, EntryHandles, BuildsExplained;
    if steps == [] {
      assert past + [] == past;
    } else {
      StepKeepsInv(s, steps[0], maxDatasets);
      StepExplained(past, s, steps[0], maxDatasets);
      RunExplained(past + [steps[0]], Apply(s, steps[0], maxDatasets), steps[1..], t, maxDatasets);
      assert past + [steps[0]] + steps[1..] == past + steps;
    }
  }

  /** In every run from a new registry opens end with a handle only where their build succeeded, and without only where it failed. */
  lemma OpensEndAsBuilt(steps: seq<Step>, t: State, maxDatasets: nat)
    requires maxDatasets >= 1 && Inv(Initial(), maxDatasets) && Executes(Initial(), steps, t, maxDatasets)
    ensures BuildsExplained(steps, t)
  {
    hide Core, ClearsOk, Executes;
    RunExplained([], Initial(), steps, t, maxDatasets);
    assert [] + steps == steps;
  }

  // ----------------------------------------------- everything comes to its end

  /** Steps other than new calls. */
  predicate IsWork(step: Step) { !step.Open? && !step.CallClear? }

  function PromiseRank(p: Promise): nat {
    match p.phase
    case AwaitTeardown(_) => 7
    case Building => 6
    case Built(_) => 5
    case Published(_) => 1
    case Failed => 1
    case Gone(_) => 0
  }

  function TeardownRank(t: Teardown): nat {
    (if t.settled then 0 else 1) + (if t.untracked then 0 else 1)
  }

  ghost predicate Outside(s: State, ps: set<nat>) {
    exists p :: 0 <= p < |s.promises| && !s.promises[p].phase.Gone? && p !in ps
  }

  /** A clear that waits for promises may have to wait once more, for opens later than its snapshot. */
  ghost function ClearRank(s: State, c: Clear): nat {
    match c.phase
    case Settling(ps) => if Outside(s, ps) then 4 else 3
    case Disposing(_) => 2
    case Draining(_) => 1
    case Resolved => 0
  }

  ghost function PromiseRanks(s: State): (r: seq<nat>)
    ensures |r| == |s.promises|
    ensures forall p :: 0 <= p < |s.promises| ==> r[p] == PromiseRank(s.promises[p])
  {
    seq(|s.promises|, p requires 0 <= p < |s.promises| => PromiseRank(s.promises[p]))
  }

  ghost function TeardownRanks(torn: seq<Teardown>): (r: seq<nat>)
    ensures |r| == |torn|
    ensures forall t :: 0 <= t < |torn| ==> r[t] == TeardownRank(torn[t])
  {
    seq(|torn|, t requires 0 <= t < |torn| => TeardownRank(torn[t]))
  }

  ghost function ClearRanks(s: State): (r: seq<nat>)
    ensures |r| == |s.clears|
    ensures forall c :: 0 <= c < |s.clears| ==> r[c] == ClearRank(s, s.clears[c])
  {
    seq(|s.clears|, c requires 0 <= c < |s.clears| => ClearRank(s, s.clears[c]))
  }

  /** What is left to do: an entry may still have to be disposed, which leaves a teardown of rank two. */
  ghost function WorkLeft(s: State): nat {
    Sum(PromiseRanks(s)) + 3 * |s.entries| + Sum(TeardownRanks(s.torn)) + Sum(ClearRanks(s))
  }

  lemma PromiseRankUpdate(s: State, p: nat, phase: Phase)
    requires p < |s.promises|
    ensures var t := SetPhase(s, p, phase);
            Sum(PromiseRanks(t)) + PromiseRank(s.promises[p]) == Sum(PromiseRanks(s)) + PromiseRank(s.promises[p].(phase := phase))
  {
    hide Sum, PromiseRank;
    var t := SetPhase(s, p, phase);
    SumUpdate(PromiseRanks(s), p, PromiseRank(t.promises[p]));
    assert PromiseRanks(t) == PromiseRanks(s)[p := PromiseRank(t.promises[p])];
  }

  lemma SamePromiseRanks(s: State, t: State)
    requires t.promises == s.promises
    ensures PromiseRanks(t) == PromiseRanks(s)
  {
    hide PromiseRank;
  }

  lemma TeardownRankUpdate(torn: seq<Teardown>, t: nat, done: Teardown)
    requires t < |torn|
    ensures Sum(TeardownRanks(torn[t := done])) + TeardownRank(torn[t]) == Sum(TeardownRanks(torn)) + TeardownRank(done)
  {
    hide Sum, TeardownRank;
    SumUpdate(TeardownRanks(torn), t, TeardownRank(done));
    assert TeardownRanks(torn[t := done]) == TeardownRanks(torn)[t := TeardownRank(done)];
  }

  /** No promise comes alive between the two states. */
  ghost predicate NoneRevived(s: State, t: State) {
    |t.promises| == |s.promises| && forall p :: 0 <= p < |s.promises| && s.promises[p].phase.Gone? ==> t.promises[p].phase.Gone?
  }

  /** Then no clear has more to wait for. */
  lemma ClearRanksFall(s: State, t: State)
    requires t.clears == s.clears && NoneRevived(s, t)
    ensures Sum(ClearRanks(t)) <= Sum(ClearRanks(s))
  {
    hide Sum;
    forall c | 0 <= c < |s.clears| ensures ClearRank(t, t.clears[c]) <= ClearRank(s, s.clears[c]) {
      ClearRankFalls(s, t, s.clears[c]);
    }
    SumMonotone(ClearRanks(t), ClearRanks(s));
  }

  lemma ClearRankFalls(s: State, t: State, c: Clear)
    requires NoneRevived(s, t)
    ensures ClearRank(t, c) <= ClearRank(s, c)
  {
    if c.phase.Settling? && Outside(t, c.phase.promises) {
      var p :| 0 <= p < |t.promises| && !t.promises[p].phase.Gone? && p !in c.phase.promises;
      assert !s.promises[p].phase.Gone?;
    }
  }

  lemma ClearRankUpdate(s: State, c: nat, done: Clear)
    requires c < |s.clears|
    ensures var t := s.(clears := s.clears[c := done]);
            Sum(ClearRanks(t)) + ClearRank(s, s.clears[c]) == Sum(ClearRanks(s)) + ClearRank(s, done)
  {
    hide Sum, ClearRank;
    var t := s.(clears := s.clears[c := done]);
    forall d | 0 <= d < |t.clears| ensures ClearRank(t, t.clears[d]) == ClearRank(s, t.clears[d]) {
      ClearRankFields(s, t, t.clears[d]);
    }
    SumUpdate(ClearRanks(s), c, ClearRank(s, done));
    assert ClearRanks(t) == ClearRanks(s)[c := ClearRank(s, done)];
  }

  lemma ClearRankFields(s: State, t: State, c: Clear)
    requires t.promises == s.promises
    ensures ClearRank(t, c) == ClearRank(s, c)
  {
    ClearRankFalls(s, t, c);
    ClearRankFalls(t, s, c);
  }

  /** Disposing trades an entry for a teardown of smaller rank. */
  lemma {:induction false} EvictLowersWork(s: State, keep: nat)
    requires Core(s)
    ensures EntryHandles(s)
    ensures 3 * |Evict(s, keep).entries| + Sum(TeardownRanks(Evict(s, keep).torn)) <= 3 * |s.entries| + Sum(TeardownRanks(s.torn))
    decreases |s.entries|
  {
    hide Core, Sum, TeardownRanks;
    HandlesExist(s);
    if |s.entries| > keep {
      DisposeKeeps(s);
      EvictLowersWork(DisposeOldest(s), keep);
      PendingRank(s.torn, DisposeOldest(s).torn[|s.torn|]);
    }
  }

  lemma PendingRank(torn: seq<Teardown>, t: Teardown)
    requires !t.settled && !t.untracked
    ensures Sum(TeardownRanks(torn + [t])) == Sum(TeardownRanks(torn)) + 2
  {
    hide Sum;
    SumAppend(TeardownRanks(torn), 2);
    assert TeardownRanks(torn + [t]) == TeardownRanks(torn) + [2];
  }

  lemma PromiseStepLowersWork(s: State, t: State, p: nat, phase: Phase)
    requires p < |s.promises| && !s.promises[p].phase.Gone?
    requires PromiseRank(s.promises[p].(phase := phase)) < PromiseRank(s.promises[p])
    requires t.promises == SetPhase(s, p, phase).promises && t.entries == s.entries && t.torn == s.torn && t.clears == s.clears
    ensures WorkLeft(t) < WorkLeft(s)
  {
    hide Sum, PromiseRank, TeardownRanks, ClearRanks, PromiseRanks;
    PromiseRankUpdate(s, p, phase);
    SamePromiseRanks(SetPhase(s, p, phase), t);
    ClearRanksFall(s, t);
  }

  lemma PublishLowersWork(s: State, p: nat, maxDatasets: nat)
    requires Core(s) && Enabled(s, Publish(p)) && EntryHandles(s)
    ensures WorkLeft(ApplyPublish(s, p, maxDatasets)) < WorkLeft(s)
  {
    hide Core, Sum, TeardownRanks, ClearRanks, PromiseRanks, Evict, Advances;
    var h := s.promises[p].phase.handle;
    var mid := Insert(s, p, h);
    InsertKeeps(s, p);
    EvictKeeps(mid, maxDatasets);
    EvictLowersWork(mid, maxDatasets);
    var t := Evict(mid, maxDatasets);
    PromiseRankUpdate(s, p, Published(h));
    SamePromiseRanks(SetPhase(s, p, Published(h)), t);
    assert PromiseRank(s.promises[p]) == 5 && PromiseRank(s.promises[p].(phase := Published(h))) == 1;
    ClearRanksFall(s, t);
  }

  lemma TeardownStepLowersWork(s: State, t: State, u: nat, done: Teardown)
    requires u < |s.torn| && t.torn == s.torn[u := done] && TeardownRank(done) < TeardownRank(s.torn[u])
    requires t.promises == s.promises && t.entries == s.entries && t.clears == s.clears
    ensures WorkLeft(t) < WorkLeft(s)
  {
    hide Sum, PromiseRank, TeardownRanks, ClearRanks, PromiseRanks, TeardownRank;
    TeardownRankUpdate(s.torn, u, done);
    SamePromiseRanks(s, t);
    ClearRanksFall(s, t);
  }

  lemma ClearStepLowersWork(s: State, c: nat, done: Clear)
    requires c < |s.clears| && ClearRank(s, done) < ClearRank(s, s.clears[c])
    ensures WorkLeft(s.(clears := s.clears[c := done])) < WorkLeft(s)
  {
    hide Sum, PromiseRank, TeardownRanks, ClearRanks, PromiseRanks, ClearRank;
    ClearRankUpdate(s, c, done);
    SamePromiseRanks(s, s.(clears := s.clears[c := done]));
  }

  /** A clear that waits again has all live promises in its snapshot, and had none before. */
  lemma RecheckLowersWork(s: State, c: nat)
    requires Core(s) && Enabled(s, Recheck(c)) && EntryHandles(s)
    ensures WorkLeft(ApplyRecheck(s, c)) < WorkLeft(s)
  {
    hide EntriesOk, CachedOk, TornOk, TrackedOk, ApartOk, EarlyOk, BuildsOk, ResultsOk, InflightOk, WorkLeft, Evict, Indices, Advances, Outside;
    if s.inflight != map[] {
      NowAllInside(s, c);
      ClearStepLowersWork(s, c, s.clears[c].(phase := Settling(s.inflight.Values)));
    } else {
      SweepLowersWork(s, c);
    }
  }

  lemma NowAllInside(s: State, c: nat)
    requires InflightOk(s.promises, s.inflight) && s.inflight != map[] && Enabled(s, Recheck(c))
    ensures Outside(s, s.clears[c].phase.promises) && !Outside(s, s.inflight.Values)
  {
    var id :| id in s.inflight;
    var p := s.inflight[id];
    assert !s.promises[p].phase.Gone? && p !in s.clears[c].phase.promises;
    forall q | 0 <= q < |s.promises| && !s.promises[q].phase.Gone? ensures q in s.inflight.Values {
      assert s.promises[q].id in s.inflight && s.inflight[s.promises[q].id] == q;
    }
  }

  lemma SweepLowersWork(s: State, c: nat)
    requires Core(s) && EntryHandles(s) && c < |s.clears| && s.clears[c].phase.Settling? && s.inflight == map[]
    ensures WorkLeft(ApplyRecheck(s, c)) < WorkLeft(s)
  {
    hide Core, Sum, TeardownRanks, ClearRanks, PromiseRanks, Evict, Indices, Advances;
    EvictKeeps(s, 0);
    EvictLowersWork(s, 0);
    var swept := Evict(s, 0);
    SamePromiseRanks(s, swept);
    ClearRanksFall(s, swept);
    var done := s.clears[c].(phase := Disposing(Indices(|s.torn|, |swept.torn|)), swept := |s.handles|);
    ClearStepLowersWork(swept, c, done);
  }

  lemma DrainLowersWork(s: State, step: Step, maxDatasets: nat)
    requires EntryHandles(s) && Enabled(s, step) && (step.Drain? || step.Resolve?)
    ensures WorkLeft(Apply(s, step, maxDatasets)) < WorkLeft(s)
  {
    hide WorkLeft;
    match step
    case Drain(c) => ClearStepLowersWork(s, c, s.clears[c].(phase := Draining(s.teardowns.Values)));
    case Resolve(c) => ClearStepLowersWork(s, c, s.clears[c].(phase := Resolved));
  }

  lemma PhaseStepLowersWork(s: State, step: Step, maxDatasets: nat)
    requires EntryHandles(s) && Enabled(s, step) && (step.StartBuild? || step.BuildEnds? || step.Unregister?)
    ensures WorkLeft(Apply(s, step, maxDatasets)) < WorkLeft(s)
  {
    hide WorkLeft;
    var t, p := Apply(s, step, maxDatasets), step.promise;
    PromiseStepLowersWork(s, t, p, t.promises[p].phase);
  }

  lemma SettleLowersWork(s: State, step: Step, maxDatasets: nat)
    requires EntryHandles(s) && Enabled(s, step) && (step.Settle? || step.Untrack?)
    ensures WorkLeft(Apply(s, step, maxDatasets)) < WorkLeft(s)
  {
    hide WorkLeft;
    var t, u := Apply(s, step, maxDatasets), step.teardown;
    TeardownStepLowersWork(s, t, u, t.torn[u]);
  }

  /** Every step other than a new call lowers what is left to do. */
  lemma WorkLowersMeasure(s: State, step: Step, maxDatasets: nat)
    requires Inv(s, maxDatasets) && Enabled(s, step) && IsWork(step)
    ensures EntryHandles(s) && WorkLeft(Apply(s, step, maxDatasets)) < WorkLeft(s)
  {
    hide Core, ClearsOk, WorkLeft, Enabled, ApplyPublish, ApplyRecheck, ApplyBuilt, ApplyUnregister, ApplyUntrack;
    InvHandles(s, maxDatasets);
    match step
    case Publish(p) => PublishLowersWork(s, p, maxDatasets);
    case Recheck(c) => RecheckLowersWork(s, c);
    case Drain(_) => DrainLowersWork(s, step, maxDatasets);
    case Resolve(_) => DrainLowersWork(s, step, maxDatasets);
    case Settle(_) => SettleLowersWork(s, step, maxDatasets);
    case Untrack(_) => SettleLowersWork(s, step, maxDatasets);
    case _ => PhaseStepLowersWork(s, step, maxDatasets);
  }

  /** Without new calls no execution is longer than the work left at its start. */
  lemma {:induction false} WorkEnds(s: State, steps: seq<Step>, t: State, maxDatasets: nat)
    requires Inv(s, maxDatasets) && maxDatasets >= 1 && Executes(s, steps, t, maxDatasets)
    requires forall i :: 0 <= i < |steps| ==> IsWork(steps[i])
    ensures |steps| + WorkLeft(t) <= WorkLeft(s)
    decreases |steps|
  {
    hide Core, ClearsOk, Apply, Enabled, EntryHandles, WorkLeft, IsWork;
    if steps != [] {
      StepKeepsInv(s, steps[0], maxDatasets);
      WorkLowersMeasure(s, steps[0], maxDatasets);
      assert forall i :: 0 <= i < |steps[1..]| ==> steps[1..][i] == steps[i + 1];
      WorkEnds(Apply(s, steps[0], maxDatasets), steps[1..], t, maxDatasets);
    }
  }

  /** Every open has ended, every disposal has settled and is untracked, every clear has resolved. */
  ghost predicate Quiet(s: State) {
    && (forall p :: 0 <= p < |s.promises| ==> s.promises[p].phase.Gone?)
    && (forall t :: 0 <= t < |s.torn| ==> s.torn[t].settled && s.torn[t].untracked)
    && (forall c :: 0 <= c < |s.clears| ==> s.clears[c].phase.Resolved?)
  }

  lemma PromiseCanGoOn(s: State, maxDatasets: nat, p: nat)
    requires Inv(s, maxDatasets) && p < |s.promises| && !s.promises[p].phase.Gone?
    ensures exists step :: IsWork(step) && Enabled(s, step)
  {
    hide EntriesOk, CachedOk, TrackedOk, ApartOk, InflightOk, EarlyOk, ClearsOk, OnlyTeardown, TornOk;
    match s.promises[p].phase
    case AwaitTeardown(t) =>
      assert s.torn[t].settled ==> Enabled(s, StartBuild(p));
      assert !s.torn[t].settled ==> Enabled(s, Settle(t));
      assert IsWork(StartBuild(p)) && IsWork(Settle(t));
    case Building => assert IsWork(BuildEnds(p, true)) && Enabled(s, BuildEnds(p, true));
    case Built(h) => assert IsWork(Publish(p)) && Enabled(s, Publish(p));
    case Published(_) => assert IsWork(Unregister(p)) && Enabled(s, Unregister(p));
    case Failed => assert IsWork(Unregister(p)) && Enabled(s, Unregister(p));
  }

  lemma TeardownCanGoOn(s: State, t: nat)
    requires t < |s.torn| && !(s.torn[t].settled && s.torn[t].untracked)
    ensures exists step :: IsWork(step) && Enabled(s, step)
  {
    if s.torn[t].settled {
      assert IsWork(Untrack(t)) && Enabled(s, Untrack(t));
    } else {
      assert IsWork(Settle(t)) && Enabled(s, Settle(t));
    }
  }

  lemma ClearCanGoOn(s: State, c: nat)
    requires c < |s.clears| && ClearOk(s, s.clears[c]) && !s.clears[c].phase.Resolved?
    requires forall p :: 0 <= p < |s.promises| ==> s.promises[p].phase.Gone?
    requires forall t :: 0 <= t < |s.torn| ==> s.torn[t].settled
    ensures exists step :: IsWork(step) && Enabled(s, step)
  {
    hide TornBefore, GoneBefore, SettledOrIn;
    match s.clears[c].phase
    case Settling(_) => assert IsWork(Recheck(c)) && Enabled(s, Recheck(c));
    case Disposing(_) => assert IsWork(Drain(c)) && Enabled(s, Drain(c));
    case Draining(_) => assert IsWork(Resolve(c)) && Enabled(s, Resolve(c));
  }

  /**
   Unless everything has come to its end, some work step can happen. With `WorkEnds`: once calls
   stop, every open settles, every disposal finishes and every clear resolves.
   */
  lemma NothingIsStuck(s: State, maxDatasets: nat)
    requires Inv(s, maxDatasets) && !Quiet(s)
    ensures exists step :: IsWork(step) && Enabled(s, step)
  {
    hide Core, ClearOk, Enabled, IsWork;
    if p :| 0 <= p < |s.promises| && !s.promises[p].phase.Gone? {
      PromiseCanGoOn(s, maxDatasets, p);
    } else if t :| 0 <= t < |s.torn| && !(s.torn[t].settled && s.torn[t].untracked) {
      TeardownCanGoOn(s, t);
    } else {
      var c :| 0 <= c < |s.clears| && !s.clears[c].phase.Resolved?;
      ClearOf(s, c);
      ClearCanGoOn(s, c);
    }
  }

  // ------------------------------------------------------------- unclosed stores

  /** A build of the promise began, and the registry has not closed the store it made. */
  ghost predicate StoreUnclosed(s: State, p: nat)
    requires p < |s.promises|
  {
    match s.promises[p].phase
    case AwaitTeardown(_) => false
    case Building => true
    case Built(_) => true
    case Published(h) => h < |s.handles| && !s.handles[h].status.Torn?
    case Failed => true
    case Gone(r) => r.Some? ==> r.value < |s.handles| && !s.handles[r.value].status.Torn?
  }

  predicate BuildFailed(phase: Phase) {
    phase.Failed? || (phase.Gone? && phase.result.None?)
  }

  /** A promise whose handle is cached: the handle is in the Map, under its id. */
  ghost predicate HandleCached(s: State, p: nat, h: nat)
    requires p < |s.promises|
  {
    h < |s.handles| && s.handles[h].status.Cached? && s.handles[h].id == s.promises[p].id && s.handles[h].maker == p
  }

  lemma UnclosedMeans(s: State, p: nat)
    requires ResultsOk(s.promises, s.handles) && p < |s.promises| && StoreUnclosed(s, p) && !BuildFailed(s.promises[p].phase)
    ensures Constructing(s.promises[p].phase) || exists h: nat :: HandleCached(s, p, h)
  {
    match s.promises[p].phase
    case Published(h) => assert HandleCached(s, p, h);
    case Gone(r) => assert HandleCached(s, p, r.value);
    case _ =>
  }

  lemma CachedIsHeld(s: State, p: nat, h: nat)
    requires CachedOk(s.entries, s.handles) && EntriesOk(s.entries, s.handles, s.clock) && p < |s.promises| && HandleCached(s, p, h)
    ensures HasHandle(s.entries, h) && HasId(s.entries, s.promises[p].id)
  {
    var a :| 0 <= a < |s.entries| && s.entries[a].handle == h;
    assert s.entries[a].id == s.promises[p].id;
  }

  lemma OneCachedHandle(s: State, p: nat, h: nat, q: nat, g: nat)
    requires CachedOk(s.entries, s.handles) && EntriesOk(s.entries, s.handles, s.clock) && p < |s.promises| && q < |s.promises|
    requires HandleCached(s, p, h) && HandleCached(s, q, g) && s.promises[p].id == s.promises[q].id
    ensures p == q
  {
    CachedIsHeld(s, p, h);
    CachedIsHeld(s, q, g);
    var a :| 0 <= a < |s.entries| && s.entries[a].handle == h;
    var b :| 0 <= b < |s.entries| && s.entries[b].handle == g;
    assert s.entries[a].id == s.entries[b].id;
    assert a == b;
  }

  /** Two unclosed stores of one id only where a build of that id has failed. */
  lemma OneUnclosedStorePerId(s: State, maxDatasets: nat, p: nat, q: nat)
    requires Inv(s, maxDatasets) && p < |s.promises| && q < |s.promises| && s.promises[p].id == s.promises[q].id
    requires StoreUnclosed(s, p) && StoreUnclosed(s, q)
    ensures p == q || BuildFailed(s.promises[p].phase) || BuildFailed(s.promises[q].phase)
  {
    hide EntriesOk, CachedOk, TornOk, TrackedOk, ApartOk, BuildsOk, ResultsOk, InflightOk, EarlyOk, ClearsOk, HandleCached, StoreUnclosed, HasId;
    if !BuildFailed(s.promises[p].phase) && !BuildFailed(s.promises[q].phase) {
      UnclosedMeans(s, p);
      UnclosedMeans(s, q);
      if Constructing(s.promises[p].phase) {
        BuildingIsAlone(s, maxDatasets, p, q);
      } else if Constructing(s.promises[q].phase) {
        BuildingIsAlone(s, maxDatasets, q, p);
      } else {
        var h: nat :| HandleCached(s, p, h);
        var g: nat :| HandleCached(s, q, g);
        OneCachedHandle(s, p, h, q, g);
      }
    }
  }

  lemma BuildingIsAlone(s: State, maxDatasets: nat, p: nat, q: nat)
    requires Inv(s, maxDatasets) && p < |s.promises| && q < |s.promises| && s.promises[p].id == s.promises[q].id
    requires Constructing(s.promises[p].phase)
    requires Constructing(s.promises[q].phase) || exists h: nat :: HandleCached(s, q, h)
    ensures p == q
  {
    hide EntriesOk, CachedOk, TornOk, TrackedOk, ApartOk, BuildsOk, ResultsOk, InflightOk, EarlyOk, ClearsOk, HandleCached, HasId;
    OneOpenStorePerId(s, maxDatasets, p);
    if h: nat :| HandleCached(s, q, h) {
      CachedIsHeld(s, q, h);
    }
  }

  /** The registry after an open of an id whose one promise stands here. */
  function OneOpen(id: Id, phase: Phase): State {
    State([], if phase.Gone? then map[] else map[id := 0], map[], [Promise(id, phase)], [], [], [], 0)
  }

  function Retried(id: Id): State {
    State([], map[id := 1], map[], [Promise(id, Gone(None)), Promise(id, Building)], [], [], [], 0)
  }

  lemma FirstOpen(id: Id)
    ensures ApplyOpen(Initial(), id) == OneOpen(id, Building)
  {
  }

  lemma BuildFails(id: Id)
    ensures Enabled(OneOpen(id, Building), BuildEnds(0, false))
    ensures ApplyBuilt(OneOpen(id, Building), 0, false) == OneOpen(id, Failed)
  {
  }

  lemma FailureIsDropped(id: Id)
    ensures Enabled(OneOpen(id, Failed), Unregister(0))
    ensures ApplyUnregister(OneOpen(id, Failed), 0) == OneOpen(id, Gone(None))
  {
    assert map[id := 0] - {id} == map[];
  }

  lemma SecondOpen(id: Id)
    ensures ApplyOpen(OneOpen(id, Gone(None)), id) == Retried(id)
  {
  }

  lemma BothUnclosed(id: Id)
    ensures StoreUnclosed(Retried(id), 0) && StoreUnclosed(Retried(id), 1)
  {
  }

  /** A failed build is never closed by the registry: a second open of the id leaves two unclosed stores. */
  lemma FailedBuildLeavesStoreOpen(id: Id)
    ensures Inv(Initial(), 1)
    ensures Executes(Initial(), [Open(id), BuildEnds(0, false), Unregister(0), Open(id)], Retried(id), 1)
    ensures StoreUnclosed(Retried(id), 0) && StoreUnclosed(Retried(id), 1)
  {
    hide Core, ClearsOk, OneOpen, Retried, StoreUnclosed, Executes, ApplyOpen, ApplyBuilt, ApplyUnregister, Initial;
    InitialHolds(1);
    StepKeepsInv(Initial(), Open(id), 1);
    FirstOpen(id);
    BuildFails(id);
    StepKeepsInv(OneOpen(id, Building), BuildEnds(0, false), 1);
    FailureIsDropped(id);
    StepKeepsInv(OneOpen(id, Failed), Unregister(0), 1);
    SecondOpen(id);
    StepKeepsInv(OneOpen(id, Gone(None)), Open(id), 1);
    BothUnclosed(id);
    Lists(Open(id), BuildEnds(0, false), Unregister(0), Open(id));
    Stops(Retried(id));
    Unfolds(OneOpen(id, Gone(None)), Open(id), [], Retried(id));
    Unfolds(OneOpen(id, Failed), Unregister(0), [Open(id)], Retried(id));
    Unfolds(OneOpen(id, Building), BuildEnds(0, false), [Unregister(0), Open(id)], Retried(id));
    Unfolds(Initial(), Open(id), [BuildEnds(0, false), Unregister(0), Open(id)], Retried(id));
  }

  lemma Lists(a: Step, b: Step, c: Step, d: Step)
    ensures [a] + [b, c, d] == [a, b, c, d] && [b] + [c, d] == [b, c, d] && [c] + [d] == [c, d] && [d] + [] == [d]
  {
  }

  lemma Stops(s: State)
    requires Inv(s, 1)
    ensures Executes(s, [], s, 1)
  {
  }

  lemma Unfolds(s: State, step: Step, rest: seq<Step>, t: State)
    requires Inv(s, 1) && EntryHandles(s) && Enabled(s, step) && Inv(Apply(s, step, 1), 1)
    requires Executes(Apply(s, step, 1), rest, t, 1)
    ensures Executes(s, [step] + rest, t, 1)
  {
    hide Inv, Apply, Enabled;
    assert ([step] + rest)[1..] == rest;
  }
}
