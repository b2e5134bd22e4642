/** The registry object: each method is the code of one stretch between two awaits. */
module DatasetRegistry {
  import opened Vectors
  import opened Registry
  import opened RegistrySafety

  /** What a call of `open` gets: a cached handle, an open in flight, or one of its own. */
  datatype Opening = Ready(handle: nat) | Joined(promise: nat) | Started(promise: nat)

  /** The entry at `a` was handed out and moved to the newest end, the others staying in order. */
  ghost predicate Handed(before: seq<Entry>, a: int, after: seq<Entry>, id: Id, handle: nat, now: nat)
    requires 0 <= a < |before|
  {
    && before[a].id == id && before[a].handle == handle
    && after == before[..a] + before[a + 1..] + [Entry(id, handle, now)]
  }

  class ZarrDatasetRegistry {
    const maxDatasets: nat
    var entries: seq<Entry>
    var inflight: map<Id, nat>
    var teardowns: map<Id, nat>
    var promises: seq<Promise>
    var torn: seq<Teardown>
    var handles: seq<Handle>
    var clears: seq<Clear>
    var clock: nat

    ghost function View(): State
      reads this
    {
      State(entries, inflight, teardowns, promises, torn, handles, clears, clock)
    }

    ghost predicate Valid()
      reads this
    {
      maxDatasets >= 1 && Inv(View(), maxDatasets)
    }

    constructor (maxDatasets: nat)
      requires maxDatasets > 0
      ensures Valid() && this.maxDatasets == maxDatasets && View() == Initial()
    {
      this.maxDatasets := maxDatasets;
      entries, inflight, teardowns := [], map[], map[];
      promises, torn, handles, clears, clock := [], [], [], [], 0;
      new;
      InitialHolds(maxDatasets);
    }

    /** `open` is called: hand out the cached handle and make it the newest, join the open in flight, or start a new one. */
    method Open(id: Id) returns (r: Opening)
      requires Valid()
      modifies this
      ensures Valid() && View() == ApplyOpen(old(View()), id)
      ensures r.Ready? <==> exists a :: 0 <= a < |old(entries)| && old(entries)[a].id == id
      ensures r.Ready? ==> exists a :: 0 <= a < |old(entries)| && Handed(old(entries), a, entries, id, r.handle, old(clock))
      ensures r.Ready? ==> promises == old(promises) && inflight == old(inflight)
      ensures r.Joined? ==> id in old(inflight) && r.promise == old(inflight)[id] && View() == old(View())
      ensures r.Started? ==>
                && id !in old(inflight) && r.promise == |old(promises)| && inflight == old(inflight)[id := r.promise]
                && promises == old(promises) + [Promise(id, if id in old(teardowns) then AwaitTeardown(old(teardowns)[id]) else Building)]
    {
      hide Inv, Find;
      OpenKeeps(View(), id, maxDatasets);
      var cached := Find(entries, id);
      if cached.Some? {
        var e := entries[cached.value];
        entries := entries[..cached.value] + entries[cached.value + 1..];
        entries := entries + [e.(used := clock)];
        clock := clock + 1;
        assert Handed(old(entries), cached.value, entries, id, e.handle, old(clock));
        return Ready(e.handle);
      }
      if id in inflight {
        return Joined(inflight[id]);
      }
      var p := |promises|;
      if id in teardowns {
        promises := promises + [Promise(id, AwaitTeardown(teardowns[id]))];
      } else {
        promises := promises + [Promise(id, Building)];
      }
      inflight := inflight[id := p];
      return Started(p);
    }

    /** The teardown an open waited for has settled: build. */
    method AfterTeardown(p: nat)
      requires Valid() && Enabled(View(), StartBuild(p))
      modifies this
      ensures Valid() && View() == SetPhase(old(View()), p, Building)
    {
      hide Inv;
      StepKeepsInv(View(), StartBuild(p), maxDatasets);
      promises := promises[p := promises[p].(phase := Building)];
    }

    /** The build resolves with a new handle, or fails. */
    method AfterBuild(p: nat, ok: bool)
      requires Valid() && Enabled(View(), BuildEnds(p, ok))
      modifies this
      ensures Valid() && View() == ApplyBuilt(old(View()), p, ok)
      ensures !ok ==> handles == old(handles) && promises[p].phase == Failed
      ensures ok ==> handles == old(handles) + [Handle(old(promises)[p].id, p, Unpublished)] && promises[p].phase == Built(|old(handles)|)
    {
      hide Inv;
      StepKeepsInv(View(), BuildEnds(p, ok), maxDatasets);
      if ok {
        var h := |handles|;
        handles := handles + [Handle(promises[p].id, p, Unpublished)];
        promises := promises[p := promises[p].(phase := Built(h))];
      } else {
        promises := promises[p := promises[p].(phase := Failed)];
      }
    }

    /** Publish the handle, then evict down to the cap. */
    method AfterBuilt(p: nat)
      requires Valid() && Enabled(View(), Publish(p))
      modifies this
      ensures EntryHandles(old(View())) && Valid() && View() == ApplyPublish(old(View()), p, maxDatasets)
      ensures |entries| <= maxDatasets
    {
      hide Core, ClearsOk, Evict;
      PublishKeeps(View(), p, maxDatasets);
      InsertKeeps(View(), p);
      var id, h := promises[p].id, promises[p].phase.handle;
      promises := promises[p := promises[p].(phase := Published(h))];
      handles := handles[h := handles[h].(status := Cached)];
      entries := entries + [Entry(id, h, clock)];
      clock := clock + 1;
      EvictWhileOver(maxDatasets);
    }

    /** The eviction loop: drop the oldest entry and track its disposal. */
    method EvictWhileOver(keep: nat)
      requires Core(View())
      modifies this
      ensures EntryHandles(old(View())) && View() == Evict(old(View()), keep)
    {
      hide Core;
      HandlesExist(View());
      while |entries| > keep
        invariant Core(View()) && EntryHandles(View()) && Evict(View(), keep) == Evict(old(View()), keep)
        decreases |entries|
      {
        DisposeKeeps(View());
        HandlesExist(DisposeOldest(View()));
        var e, t := entries[0], |torn|;
        entries := entries[1..];
        handles := handles[e.handle := handles[e.handle].(status := Torn(t))];
        torn := torn + [Teardown(e.id, e.handle, false, false)];
        teardowns := teardowns[e.id := t];
      }
    }

    /** `finally`: drop the in-flight promise. */
    method AfterOpen(p: nat)
      requires Valid() && Enabled(View(), Unregister(p))
      modifies this
      ensures Valid() && View() == ApplyUnregister(old(View()), p)
      ensures inflight == old(inflight) - {old(promises)[p].id}
      ensures promises[p].phase == Gone(match old(promises)[p].phase case Published(h) => Some(h) case _ => None)
    {
      hide Inv;
      StepKeepsInv(View(), Unregister(p), maxDatasets);
      inflight := inflight - {promises[p].id};
      var phase := promises[p].phase;
      promises := promises[p := promises[p].(phase := Gone(if phase.Published? then Some(phase.handle) else None))];
    }

    /** A tracked teardown settled: drop it unless a later one took its place. */
    method Untracked(t: nat)
      requires Valid() && Enabled(View(), Untrack(t))
      modifies this
      ensures Valid() && View() == ApplyUntrack(old(View()), t)
      ensures var id := old(torn)[t].id;
              teardowns == if id in old(teardowns) && old(teardowns)[id] == t then old(teardowns) - {id} else old(teardowns)
    {
      hide Inv;
      StepKeepsInv(View(), Untrack(t), maxDatasets);
      var id := torn[t].id;
      torn := torn[t := torn[t].(untracked := true)];
      if id in teardowns && teardowns[id] == t {
        teardowns := teardowns - {id};
      }
    }

    /** `clear` resumes with its snapshot settled: wait again, or dispose every entry. */
    method ClearContinues(c: nat)
      requires Valid() && Enabled(View(), Recheck(c))
      modifies this
      ensures EntryHandles(old(View())) && Valid() && View() == ApplyRecheck(old(View()), c)
      ensures old(inflight) != map[] ==> clears[c].phase == Settling(old(inflight).Values) && entries == old(entries)
      ensures old(inflight) == map[] ==>
                && entries == [] && clears[c].phase.Disposing?
                && forall t :: t in clears[c].phase.sweep <==> |old(torn)| <= t < |torn|
    {
      hide Core, ClearsOk, Evict, ClearOk, Indices, AllGone;
      InvHandles(View(), maxDatasets);
      RecheckKeeps(View(), c, maxDatasets);
      if inflight != map[] {
        clears := clears[c := clears[c].(phase := Settling(inflight.Values))];
        return;
      }
      EvictKeeps(View(), 0);
      var first, built := |torn|, |handles|;
      EvictWhileOver(0);
      clears := clears[c := clears[c].(phase := Disposing(Indices(first, |torn|)), swept := built)];
    }

    /** A disposal settles: its directory is gone. */
    method TornDown(t: nat)
      requires Valid() && Enabled(View(), Settle(t))
      modifies this
      ensures EntryHandles(old(View())) && Valid() && View() == Apply(old(View()), Settle(t), maxDatasets)
    {
      hide Inv;
      StepKeepsInv(View(), Settle(t), maxDatasets);
      torn := torn[t := torn[t].(settled := true)];
    }

    /** `clear` is called: wait for the opens in flight. */
    method Clear() returns (c: nat)
      requires Valid()
      modifies this
      ensures EntryHandles(old(View())) && Valid() && View() == Apply(old(View()), CallClear, maxDatasets) && c == |old(clears)|
    {
      hide Inv;
      StepKeepsInv(View(), CallClear, maxDatasets);
      c := |clears|;
      clears := clears + [Registry.Clear(Settling(inflight.Values), |promises|, |handles|, 0)];
    }

    /** The sweep's disposals have settled: wait for those of earlier evictions. */
    method AfterDisposals(c: nat)
      requires Valid() && Enabled(View(), Drain(c))
      modifies this
      ensures EntryHandles(old(View())) && Valid() && View() == Apply(old(View()), Drain(c), maxDatasets)
    {
      hide Inv;
      StepKeepsInv(View(), Drain(c), maxDatasets);
      clears := clears[c := clears[c].(phase := Draining(teardowns.Values))];
    }

    /** Everything tracked has settled: `clear` resolves. */
    method AfterTeardowns(c: nat)
      requires Valid() && Enabled(View(), Resolve(c))
      modifies this
      ensures EntryHandles(old(View())) && Valid() && View() == Apply(old(View()), Resolve(c), maxDatasets)
    {
      hide Inv;
      StepKeepsInv(View(), Resolve(c), maxDatasets);
      clears := clears[c := clears[c].(phase := Resolved)];
    }
  }
}
