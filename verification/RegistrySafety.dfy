/** Every step of the registry keeps its invariants. */
module RegistrySafety {
  import opened Vectors
  import opened Registry

  // ------------------------------------------------------- opening and building

  lemma FindMeaning(entries: seq<Entry>, id: Id)
    ensures Find(entries, id).None? <==> !HasId(entries, id)
  {
    hide Find;
    if HasId(entries, id) {
      var a :| 0 <= a < |entries| && entries[a].id == id;
    }
  }

  lemma MissIsAlone(s: State, id: Id)
    requires TrackedOk(s.teardowns, s.torn)
    ensures OnlyTeardown(s.torn, id, if id in s.teardowns then s.teardowns[id] else -1)
  {
  }

  lemma MissBuilds(s: State, id: Id)
    requires Core(s) && Find(s.entries, id).None? && id !in s.inflight
    ensures var t := ApplyOpen(s, id);
            InflightOk(t.promises, t.inflight) && BuildsOk(t.promises, t.torn)
  {
    hide Find, EntriesOk, CachedOk, TornOk, ApartOk, EarlyOk, ResultsOk, OnlyTeardown;
    MissIsAlone(s, id);
  }

  lemma OpenMissKeeps(s: State, id: Id)
    requires Core(s) && Find(s.entries, id).None? && id !in s.inflight
    ensures Core(ApplyOpen(s, id))
  {
    hide Find, HasId, EntriesOk, CachedOk, TornOk, ApartOk, TrackedOk, InflightOk, BuildsOk;
    FindMeaning(s.entries, id);
    MissBuilds(s, id);
  }

  lemma StartBuildKeeps(s: State, p: nat)
    requires Core(s) && Enabled(s, StartBuild(p))
    ensures Core(SetPhase(s, p, Building))
  {
    hide EntriesOk, CachedOk, TornOk, TrackedOk, ApartOk, HasId;
  }

  lemma BuiltHandles(s: State, p: nat, ok: bool)
    requires Core(s) && Enabled(s, BuildEnds(p, ok))
    ensures var t := ApplyBuilt(s, p, ok);
            EntriesOk(t.entries, t.handles, t.clock) && CachedOk(t.entries, t.handles) && TornOk(t.handles, t.torn)
  {
    hide TrackedOk, ApartOk, InflightOk, BuildsOk, EarlyOk, ResultsOk, HasHandle;
  }

  lemma BuiltResults(s: State, p: nat, ok: bool)
    requires Core(s) && Enabled(s, BuildEnds(p, ok))
    ensures var t := ApplyBuilt(s, p, ok);
            ResultsOk(t.promises, t.handles)
  {
    hide EntriesOk, CachedOk, TornOk, TrackedOk, ApartOk, InflightOk, BuildsOk, EarlyOk;
  }

  lemma BuiltKeeps(s: State, p: nat, ok: bool)
    requires Core(s) && Enabled(s, BuildEnds(p, ok))
    ensures Core(ApplyBuilt(s, p, ok))
  {
    hide EntriesOk, CachedOk, TornOk, ResultsOk, TrackedOk, ApartOk, HasId, OnlyTeardown;
    BuiltHandles(s, p, ok);
    BuiltResults(s, p, ok);
  }

  lemma UnregisterKeeps(s: State, p: nat)
    requires Core(s) && Enabled(s, Unregister(p))
    ensures Core(ApplyUnregister(s, p))
  {
    hide EntriesOk, CachedOk, TornOk, TrackedOk, ApartOk, HasId, OnlyTeardown;
  }

  lemma SettleKeeps(s: State, t: nat)
    requires Core(s) && Enabled(s, Settle(t))
    ensures Core(s.(torn := s.torn[t := s.torn[t].(settled := true)]))
  {
    hide EntriesOk, CachedOk, InflightOk, EarlyOk, ResultsOk, HasId;
  }

  lemma UntrackTorn(s: State, t: nat)
    requires TornOk(s.handles, s.torn) && ApartOk(s.entries, s.torn) && BuildsOk(s.promises, s.torn) && Enabled(s, Untrack(t))
    ensures var u := ApplyUntrack(s, t);
            TornOk(u.handles, u.torn) && ApartOk(u.entries, u.torn) && BuildsOk(u.promises, u.torn)
  {
    hide HasId;
  }

  lemma UntrackTracked(s: State, t: nat)
    requires TrackedOk(s.teardowns, s.torn) && Enabled(s, Untrack(t))
    ensures var u := ApplyUntrack(s, t);
            TrackedOk(u.teardowns, u.torn)
  {
  }

  lemma UntrackKeeps(s: State, t: nat)
    requires Core(s) && Enabled(s, Untrack(t))
    ensures Core(ApplyUntrack(s, t))
  {
    hide EntriesOk, CachedOk, TornOk, TrackedOk, ApartOk, InflightOk, EarlyOk, BuildsOk, ResultsOk;
    UntrackTorn(s, t);
    UntrackTracked(s, t);
  }

  // ------------------------------------------------------------ moving entries

  lemma SameIds(a: seq<Entry>, b: seq<Entry>)
    requires forall i :: 0 <= i < |b| ==> HasId(a, b[i].id)
    ensures forall id :: HasId(b, id) ==> HasId(a, id)
  {
    forall id | HasId(b, id) ensures HasId(a, id) {
      var i :| 0 <= i < |b| && b[i].id == id;
      assert HasId(a, b[i].id);
    }
  }

  lemma FewerIdsKeep(s: State, entries: seq<Entry>)
    requires ApartOk(s.entries, s.torn) && EarlyOk(s.promises, s.entries)
    requires forall i :: 0 <= i < |entries| ==> HasId(s.entries, entries[i].id)
    ensures ApartOk(entries, s.torn) && EarlyOk(s.promises, entries)
  {
    hide HasId;
    SameIds(s.entries, entries);
  }

  /** Where an entry of the touched list was before. */
  lemma TouchedFrom(s: State, a: nat)
    requires a < |s.entries|
    ensures var es := Touch(s, a).entries;
            && |es| == |s.entries| && es[|es| - 1] == s.entries[a].(used := s.clock)
            && forall i :: 0 <= i < |es| - 1 ==> es[i] == s.entries[if i < a then i else i + 1]
  {
  }

  lemma TouchEntries(s: State, a: nat)
    requires EntriesOk(s.entries, s.handles, s.clock) && a < |s.entries|
    ensures EntriesOk(Touch(s, a).entries, s.handles, s.clock + 1)
  {
    TouchedFrom(s, a);
    hide Touch;
  }

  lemma TouchIds(s: State, a: nat)
    requires a < |s.entries|
    ensures forall i :: 0 <= i < |s.entries| ==> HasId(s.entries, Touch(s, a).entries[i].id)
  {
    var es, n := Touch(s, a).entries, |s.entries|;
    forall i | 0 <= i < n ensures HasId(s.entries, es[i].id) {
      assert es[i].id == s.entries[if i == n - 1 then a else if i < a then i else i + 1].id;
    }
  }

  lemma TouchCached(s: State, a: nat)
    requires CachedOk(s.entries, s.handles) && a < |s.entries|
    ensures CachedOk(Touch(s, a).entries, s.handles)
  {
    var es, n := Touch(s, a).entries, |s.entries|;
    forall h | 0 <= h < |s.handles| && s.handles[h].status.Cached? ensures HasHandle(es, h) {
      var i :| 0 <= i < n && s.entries[i].handle == h;
      assert es[if i < a then i else if i == a then n - 1 else i - 1].handle == h;
    }
  }

  lemma TouchKeeps(s: State, a: nat)
    requires Core(s) && a < |s.entries|
    ensures Core(Touch(s, a)) && |Touch(s, a).entries| == |s.entries|
  {
    hide EntriesOk, CachedOk, TornOk, TrackedOk, ApartOk, InflightOk, EarlyOk, BuildsOk, ResultsOk, HasId;
    TouchEntries(s, a);
    TouchIds(s, a);
    TouchCached(s, a);
    FewerIdsKeep(s, Touch(s, a).entries);
  }

  lemma AppendIds(entries: seq<Entry>, e: Entry)
    ensures forall id :: HasId(entries + [e], id) ==> id == e.id || HasId(entries, id)
    ensures forall h :: h == e.handle || HasHandle(entries, h) ==> HasHandle(entries + [e], h)
  {
    var es := entries + [e];
    forall id | HasId(es, id) && id != e.id ensures HasId(entries, id) {
      var i :| 0 <= i < |es| && es[i].id == id;
      assert entries[i].id == id;
    }
    forall h | h == e.handle || HasHandle(entries, h) ensures HasHandle(es, h) {
      if h == e.handle {
        assert es[|entries|].handle == h;
      } else {
        var i :| 0 <= i < |entries| && entries[i].handle == h;
        assert es[i].handle == h;
      }
    }
  }

  lemma InsertEntries(s: State, p: nat)
    requires Core(s) && Enabled(s, Publish(p))
    ensures var t := Insert(s, p, s.promises[p].phase.handle);
            EntriesOk(t.entries, t.handles, t.clock) && CachedOk(t.entries, t.handles) && TornOk(t.handles, t.torn)
  {
    hide TrackedOk, ApartOk, InflightOk, BuildsOk, HasHandle, OnlyTeardown;
    var h := s.promises[p].phase.handle;
    AppendIds(s.entries, Entry(s.promises[p].id, h, s.clock));
    NotHeld(s.entries, s.promises[p].id);
  }

  lemma NotHeld(entries: seq<Entry>, id: Id)
    requires !HasId(entries, id)
    ensures forall a :: 0 <= a < |entries| ==> entries[a].id != id
  {
  }

  lemma InsertApart(s: State, p: nat)
    requires Core(s) && Enabled(s, Publish(p))
    ensures var t := Insert(s, p, s.promises[p].phase.handle);
            ApartOk(t.entries, t.torn) && EarlyOk(t.promises, t.entries)
  {
    hide EntriesOk, CachedOk, TornOk, TrackedOk, ResultsOk, HasId;
    AppendIds(s.entries, Entry(s.promises[p].id, s.promises[p].phase.handle, s.clock));
  }

  lemma InsertPromises(s: State, p: nat)
    requires Core(s) && Enabled(s, Publish(p))
    ensures var t := Insert(s, p, s.promises[p].phase.handle);
            InflightOk(t.promises, t.inflight) && BuildsOk(t.promises, t.torn) && ResultsOk(t.promises, t.handles)
  {
    hide EntriesOk, CachedOk, TornOk, TrackedOk, ApartOk, EarlyOk, HasId, OnlyTeardown;
  }

  lemma InsertKeeps(s: State, p: nat)
    requires Core(s) && Enabled(s, Publish(p))
    ensures Core(Insert(s, p, s.promises[p].phase.handle))
  {
    hide EntriesOk, CachedOk, TornOk, TrackedOk, ApartOk, InflightOk, EarlyOk, BuildsOk, ResultsOk;
    InsertEntries(s, p);
    InsertApart(s, p);
    InsertPromises(s, p);
  }

  // ------------------------------------------------------------------ disposing

  lemma OldestIsLive(s: State)
    requires Core(s) && s.entries != []
    ensures s.entries[0].handle < |s.handles| && s.handles[s.entries[0].handle].id == s.entries[0].id
    ensures s.handles[s.entries[0].handle].status.Cached?
    ensures !HasId(s.entries[1..], s.entries[0].id) && HasId(s.entries, s.entries[0].id)
    ensures forall i :: 0 <= i < |s.entries| - 1 ==> HasId(s.entries, s.entries[1..][i].id)
  {
    hide CachedOk, TornOk, TrackedOk, ApartOk, InflightOk, EarlyOk, BuildsOk, ResultsOk;
    assert forall i :: 0 <= i < |s.entries| - 1 ==> s.entries[1..][i] == s.entries[i + 1];
  }

  lemma DisposeEntries(s: State)
    requires Core(s) && s.entries != []
    ensures var t := DisposeOldest(s);
            EntriesOk(t.entries, t.handles, t.clock) && CachedOk(t.entries, t.handles)
  {
    hide TornOk, TrackedOk, ApartOk, InflightOk, EarlyOk, BuildsOk, ResultsOk;
    var t := DisposeOldest(s);
    assert forall i :: 0 <= i < |t.entries| ==> t.entries[i] == s.entries[i + 1];
    forall h | 0 <= h < |t.handles| && t.handles[h].status.Cached? ensures HasHandle(t.entries, h) {
      var a :| 0 <= a < |s.entries| && s.entries[a].handle == h;
      assert t.entries[a - 1].handle == h;
    }
  }

  lemma DisposeTorn(s: State)
    requires Core(s) && s.entries != []
    ensures var t := DisposeOldest(s);
            TornOk(t.handles, t.torn)
  {
    hide EntriesOk, CachedOk, InflightOk, EarlyOk, BuildsOk, ResultsOk, TrackedOk, ApartOk;
    OldestIsLive(s);
  }

  lemma DisposeTracked(s: State)
    requires Core(s) && s.entries != []
    ensures var t := DisposeOldest(s);
            TrackedOk(t.teardowns, t.torn)
  {
    hide EntriesOk, CachedOk, InflightOk, EarlyOk, BuildsOk, ResultsOk, TornOk, HasId;
    OldestIsLive(s);
  }

  lemma DisposeResults(s: State)
    requires Core(s) && s.entries != []
    ensures var t := DisposeOldest(s);
            ResultsOk(t.promises, t.handles)
  {
    hide EntriesOk, CachedOk, InflightOk, EarlyOk, BuildsOk, TornOk, TrackedOk, ApartOk, HasId;
    OldestIsLive(s);
  }

  lemma DisposeApart(s: State)
    requires Core(s) && s.entries != []
    ensures var t := DisposeOldest(s);
            ApartOk(t.entries, t.torn) && EarlyOk(t.promises, t.entries) && BuildsOk(t.promises, t.torn)
  {
    hide EntriesOk, CachedOk, TornOk, TrackedOk, InflightOk, ResultsOk, HasId;
    OldestIsLive(s);
    FewerIdsKeep(s, s.entries[1..]);
  }

  /** Disposing the oldest entry keeps everything: its id has no other teardown and no build. */
  lemma DisposeKeeps(s: State)
    requires Core(s) && s.entries != []
    ensures EntryHandles(s) && Core(DisposeOldest(s))
  {
    hide EntriesOk, CachedOk, TornOk, TrackedOk, ApartOk, InflightOk, EarlyOk, BuildsOk, ResultsOk;
    HandlesExist(s);
    DisposeEntries(s);
    DisposeTorn(s);
    DisposeTracked(s);
    DisposeResults(s);
    DisposeApart(s);
  }

  lemma HandlesExist(s: State)
    requires Core(s)
    ensures EntryHandles(s)
  {
  }

  // --------------------------------------------------------------------- clears

  /** What never goes back: settled promises, torn handles and settled teardowns. */
  ghost predicate Advances(s: State, t: State) {
    && |s.promises| <= |t.promises| && |s.handles| <= |t.handles| && |s.torn| <= |t.torn|
    && (forall p :: 0 <= p < |s.promises| && s.promises[p].phase.Gone? ==> t.promises[p] == s.promises[p])
    && (forall h :: 0 <= h < |s.handles| && s.handles[h].status.Torn? ==> t.handles[h] == s.handles[h])
    && (forall u :: 0 <= u < |s.torn| && s.torn[u].settled ==> t.torn[u].settled)
  }

  lemma ClearFrame(s: State, t: State, c: Clear)
    requires Advances(s, t) && ClearOk(s, c)
    ensures ClearOk(t, c)
  {
  }

  lemma ClearsFrame(s: State, t: State)
    requires Advances(s, t) && ClearsOk(s) && t.clears == s.clears
    ensures ClearsOk(t)
  {
    hide Advances, ClearOk;
    forall c | 0 <= c < |t.clears| ensures ClearOk(t, t.clears[c]) {
      ClearFrame(s, t, s.clears[c]);
    }
  }

  lemma OneClearChanges(s: State, t: State, c: nat, changed: Clear)
    requires Advances(s, t) && ClearsOk(s) && c < |s.clears| && t.clears == s.clears[c := changed]
    requires ClearOk(t, changed)
    ensures ClearsOk(t)
  {
    hide Advances, ClearOk;
    forall d | 0 <= d < |t.clears| ensures ClearOk(t, t.clears[d]) {
      if d != c {
        ClearFrame(s, t, s.clears[d]);
      }
    }
  }

  lemma DisposeAdvances(s: State)
    requires Core(s) && s.entries != []
    ensures EntryHandles(s) && Advances(s, DisposeOldest(s))
  {
    hide CachedOk, TornOk, TrackedOk, ApartOk, InflightOk, EarlyOk, BuildsOk, ResultsOk;
    OldestIsLive(s);
  }

  lemma AdvancesTwice(s: State, t: State, u: State)
    requires Advances(s, t) && Advances(t, u)
    ensures Advances(s, u)
  {
  }

  /** What an eviction leaves: the newest `keep` entries, everything else disposed. */
  lemma {:induction false} EvictKeeps(s: State, keep: nat)
    requires Core(s)
    ensures EntryHandles(s) && Core(Evict(s, keep)) && Advances(s, Evict(s, keep))
    ensures Evict(s, keep).entries == (if |s.entries| > keep then s.entries[|s.entries| - keep..] else s.entries)
    ensures Evict(s, keep).promises == s.promises && Evict(s, keep).inflight == s.inflight
    ensures Evict(s, keep).clears == s.clears && |Evict(s, keep).handles| == |s.handles|
    decreases |s.entries|
  {
    hide Core, Advances;
    HandlesExist(s);
    if |s.entries| > keep {
      DisposeKeeps(s);
      DisposeAdvances(s);
      EvictKeeps(DisposeOldest(s), keep);
      AdvancesTwice(s, DisposeOldest(s), Evict(s, keep));
    } else {
      AdvancesNone(s);
    }
  }

  lemma AdvancesNone(s: State)
    ensures Advances(s, s)
  {
  }

  /** A sweep with no promise in flight leaves every handle disposed. */
  lemma SweepTearsAll(s: State)
    requires Core(s) && s.inflight == map[] && s.entries == []
    ensures TornBefore(s, |s.handles|) && GoneBefore(s, |s.promises|, |s.handles|)
  {
    hide EntriesOk, TrackedOk, ApartOk, EarlyOk, BuildsOk, TornOk;
    assert forall h: nat :: !HasHandle([], h);
  }

  // ----------------------------------------------------------- the clear steps

  lemma CallClearOk(s: State)
    requires Core(s)
    ensures ClearOk(s, Clear(Settling(s.inflight.Values), |s.promises|, |s.handles|, 0))
  {
    hide EntriesOk, CachedOk, TornOk, TrackedOk, ApartOk, EarlyOk, BuildsOk, ResultsOk;
    forall p | 0 <= p < |s.promises| ensures p in s.inflight.Values || s.promises[p].phase.Gone? {
      if !s.promises[p].phase.Gone? {
        assert s.promises[p].id in s.inflight && s.inflight[s.promises[p].id] == p;
      }
    }
  }

  lemma CallClearKeeps(s: State, maxDatasets: nat)
    requires Inv(s, maxDatasets)
    ensures Inv(Apply(s, CallClear, maxDatasets), maxDatasets)
  {
    hide EntriesOk, CachedOk, TornOk, TrackedOk, ApartOk, InflightOk, EarlyOk, BuildsOk, ResultsOk, ClearOk;
    HandlesExist(s);
    var c := Clear(Settling(s.inflight.Values), |s.promises|, |s.handles|, 0);
    var t := s.(clears := s.clears + [c]);
    CallClearOk(s);
    SameBut(s, t);
    forall d | 0 <= d < |t.clears| ensures ClearOk(t, t.clears[d]) {
      ClearFrame(s, t, t.clears[d]);
    }
  }

  lemma SameBut(s: State, t: State)
    requires t.promises == s.promises && t.handles == s.handles && t.torn == s.torn
    ensures Advances(s, t)
  {
  }

  lemma DrainKeeps(s: State, c: nat, maxDatasets: nat)
    requires Inv(s, maxDatasets) && Enabled(s, Drain(c))
    ensures Inv(Apply(s, Drain(c), maxDatasets), maxDatasets)
  {
    hide EntriesOk, CachedOk, ApartOk, InflightOk, EarlyOk, BuildsOk, ResultsOk, TornOk, TrackedOk, ClearOk, ClearsOk;
    HandlesExist(s);
    var done := s.clears[c].(phase := Draining(s.teardowns.Values));
    ClearOf(s, c);
    DrainSettles(s, c);
    var t := s.(clears := s.clears[c := done]);
    SameBut(s, t);
    ClearFrame(s, t, done);
    OneClearChanges(s, t, c, done);
  }

  lemma ClearOf(s: State, c: nat)
    requires ClearsOk(s) && c < |s.clears|
    ensures ClearOk(s, s.clears[c])
  {
  }

  lemma DrainSettles(s: State, c: nat)
    requires Core(s) && c < |s.clears| && ClearOk(s, s.clears[c]) && s.clears[c].phase.Disposing?
    ensures ClearOk(s, s.clears[c].(phase := Draining(s.teardowns.Values)))
  {
    hide EntriesOk, CachedOk, ApartOk, InflightOk, EarlyOk, BuildsOk, ResultsOk;
    forall u | 0 <= u < |s.torn| && !s.torn[u].settled ensures u in s.teardowns.Values {
      assert s.torn[u].id in s.teardowns && s.teardowns[s.torn[u].id] == u;
    }
  }

  lemma ResolveKeeps(s: State, c: nat, maxDatasets: nat)
    requires Inv(s, maxDatasets) && Enabled(s, Resolve(c))
    ensures Inv(Apply(s, Resolve(c), maxDatasets), maxDatasets)
  {
    hide EntriesOk, CachedOk, ApartOk, InflightOk, EarlyOk, BuildsOk, ResultsOk, TornOk, TrackedOk, ClearOk, ClearsOk;
    HandlesExist(s);
    var done := s.clears[c].(phase := Resolved);
    ClearOf(s, c);
    ResolveSettles(s, c);
    var t := s.(clears := s.clears[c := done]);
    SameBut(s, t);
    ClearFrame(s, t, done);
    OneClearChanges(s, t, c, done);
  }

  lemma ResolveSettles(s: State, c: nat)
    requires c < |s.clears| && ClearOk(s, s.clears[c]) && s.clears[c].phase.Draining?
    requires AllSettled(s, s.clears[c].phase.rest)
    ensures ClearOk(s, s.clears[c].(phase := Resolved))
  {
  }

  lemma SweptClearOk(s: State, t: State, c: Clear, sweep: set<nat>)
    requires ClearOk(s, c) && Advances(s, t) && TornBefore(t, |s.handles|) && GoneBefore(t, |t.promises|, |s.handles|)
    requires |t.handles| == |s.handles| && forall u :: u in sweep ==> u < |t.torn|
    ensures ClearOk(t, c.(phase := Disposing(sweep), swept := |s.handles|))
  {
  }

  lemma RecheckKeeps(s: State, c: nat, maxDatasets: nat)
    requires Inv(s, maxDatasets) && Enabled(s, Recheck(c))
    ensures Inv(Apply(s, Recheck(c), maxDatasets), maxDatasets)
  {
    hide EntriesOk, CachedOk, ApartOk, InflightOk, EarlyOk, BuildsOk, ResultsOk, TornOk, TrackedOk, ClearOk, ClearsOk,
      Evict, Indices, Advances, TornBefore, GoneBefore;
    HandlesExist(s);
    ClearOf(s, c);
    if s.inflight != map[] {
      var again := s.clears[c].(phase := Settling(s.inflight.Values));
      InflightExists(s);
      ResettleOk(s, c, s.inflight.Values);
      var t := s.(clears := s.clears[c := again]);
      SameBut(s, t);
      ClearFrame(s, t, again);
      OneClearChanges(s, t, c, again);
    } else {
      EvictKeeps(s, 0);
      var swept := Evict(s, 0);
      SweepTearsAll(swept);
      var sweep := Indices(|s.torn|, |swept.torn|);
      SweptClearOk(s, swept, s.clears[c], sweep);
      var done := s.clears[c].(phase := Disposing(sweep), swept := |s.handles|);
      var t := swept.(clears := s.clears[c := done]);
      SameBut(swept, t);
      AdvancesTwice(s, swept, t);
      ClearFrame(swept, t, done);
      OneClearChanges(s, t, c, done);
    }
  }

  lemma InflightExists(s: State)
    requires InflightOk(s.promises, s.inflight)
    ensures forall p :: p in s.inflight.Values ==> p < |s.promises|
  {
  }

  lemma ResettleOk(s: State, c: nat, promises: set<nat>)
    requires c < |s.clears| && ClearOk(s, s.clears[c]) && s.clears[c].phase.Settling?
    requires AllGone(s, s.clears[c].phase.promises) && forall p :: p in promises ==> p < |s.promises|
    ensures ClearOk(s, s.clears[c].(phase := Settling(promises)))
  {
  }

  // ----------------------------------------------------------------- all steps

  lemma CoreStepKeeps(s: State, t: State, maxDatasets: nat)
    requires Inv(s, maxDatasets) && Core(t) && Advances(s, t) && t.clears == s.clears && |t.entries| <= maxDatasets
    ensures Inv(t, maxDatasets)
  {
    hide Core, Advances, ClearsOk;
    ClearsFrame(s, t);
  }

  lemma OpenKeeps(s: State, id: Id, maxDatasets: nat)
    requires Inv(s, maxDatasets)
    ensures Inv(ApplyOpen(s, id), maxDatasets)
  {
    hide Core, ClearsOk, Find;
    var found := Find(s.entries, id);
    if found.Some? {
      TouchKeeps(s, found.value);
      SameBut(s, Touch(s, found.value));
      CoreStepKeeps(s, Touch(s, found.value), maxDatasets);
    } else if id !in s.inflight {
      OpenMissKeeps(s, id);
      CoreStepKeeps(s, ApplyOpen(s, id), maxDatasets);
    }
  }

  lemma PublishKeeps(s: State, p: nat, maxDatasets: nat)
    requires Inv(s, maxDatasets) && Enabled(s, Publish(p)) && maxDatasets >= 1
    ensures EntryHandles(s) && Inv(ApplyPublish(s, p, maxDatasets), maxDatasets)
  {
    hide Core, ClearsOk, Evict, Advances;
    HandlesExist(s);
    var mid := Insert(s, p, s.promises[p].phase.handle);
    InsertKeeps(s, p);
    InsertAdvances(s, p);
    EvictKeeps(mid, maxDatasets);
    AdvancesTwice(s, mid, Evict(mid, maxDatasets));
    CoreStepKeeps(s, Evict(mid, maxDatasets), maxDatasets);
  }

  lemma InsertAdvances(s: State, p: nat)
    requires Core(s) && Enabled(s, Publish(p))
    ensures Advances(s, Insert(s, p, s.promises[p].phase.handle))
  {
    hide EntriesOk, CachedOk, ApartOk, InflightOk, EarlyOk, BuildsOk, TornOk, TrackedOk;
  }

  lemma PromiseStepKeeps(s: State, step: Step, maxDatasets: nat)
    requires Inv(s, maxDatasets) && Enabled(s, step) && EntryHandles(s)
    requires step.StartBuild? || step.BuildEnds? || step.Unregister?
    ensures Inv(Apply(s, step, maxDatasets), maxDatasets)
  {
    hide Core, ClearsOk;
    match step {
      case StartBuild(p) => StartBuildKeeps(s, p);
      case BuildEnds(p, ok) => BuiltKeeps(s, p, ok);
      case Unregister(p) => UnregisterKeeps(s, p);
    }
    CoreStepKeeps(s, Apply(s, step, maxDatasets), maxDatasets);
  }

  lemma TeardownStepKeeps(s: State, step: Step, maxDatasets: nat)
    requires Inv(s, maxDatasets) && Enabled(s, step) && EntryHandles(s)
    requires step.Settle? || step.Untrack?
    ensures Inv(Apply(s, step, maxDatasets), maxDatasets)
  {
    hide Core, ClearsOk;
    match step {
      case Settle(t) => SettleKeeps(s, t);
      case Untrack(t) => UntrackKeeps(s, t);
    }
    CoreStepKeeps(s, Apply(s, step, maxDatasets), maxDatasets);
  }

  lemma StepKeepsInv(s: State, step: Step, maxDatasets: nat)
    requires Inv(s, maxDatasets) && Enabled(s, step) && maxDatasets >= 1
    ensures EntryHandles(s) && Inv(Apply(s, step, maxDatasets), maxDatasets)
  {
    hide Inv, Enabled, ApplyOpen, ApplyBuilt, ApplyPublish, ApplyUnregister, ApplyUntrack, ApplyRecheck;
    InvHandles(s, maxDatasets);
    match step
    case Open(id) => OpenKeeps(s, id, maxDatasets);
    case Publish(p) => PublishKeeps(s, p, maxDatasets);
    case CallClear => CallClearKeeps(s, maxDatasets);
    case Recheck(c) => RecheckKeeps(s, c, maxDatasets);
    case Drain(c) => DrainKeeps(s, c, maxDatasets);
    case Resolve(c) => ResolveKeeps(s, c, maxDatasets);
    case Settle(_) => TeardownStepKeeps(s, step, maxDatasets);
    case Untrack(_) => TeardownStepKeeps(s, step, maxDatasets);
    case _ => PromiseStepKeeps(s, step, maxDatasets);
  }

  lemma InvHandles(s: State, maxDatasets: nat)
    requires Inv(s, maxDatasets)
    ensures EntryHandles(s)
  {
  }

  lemma InitialHolds(maxDatasets: nat)
    ensures Inv(Initial(), maxDatasets)
  {
  }
}
