/**
 The dataset registry as a step machine: opens, evictions and clears over handles whose disk
 directories are keyed by dataset id. A step is the code between two awaits.
 */
module Registry {
  import opened Vectors

  type Id = string

  /** A cached handle; entries are in Map order, and `used` is the time of the last open. */
  datatype Entry = Entry(id: Id, handle: nat, used: nat)

  /** One opening promise: behind a teardown, building, built, published, failed, or settled and dropped. */
  datatype Phase =
    | AwaitTeardown(teardown: nat)
    | Building
    | Built(handle: nat)
    | Published(handle: nat)
    | Failed
    | Gone(result: Option<nat>)

  datatype Promise = Promise(id: Id, phase: Phase)

  /**
   One disposal of a handle: its store is closed from the start, its directory is gone once
   settled, and then its own callback untracks it.
   */
  datatype Teardown = Teardown(id: Id, handle: nat, settled: bool, untracked: bool)

  datatype Status = Unpublished | Cached | Torn(teardown: nat)

  /** A built dataset, and the promise that built it. */
  datatype Handle = Handle(id: Id, maker: nat, status: Status)

  /** One `clear()` call; the counts are those at the call, and at the sweep of the entries. */
  datatype ClearPhase = Settling(promises: set<nat>) | Disposing(sweep: set<nat>) | Draining(rest: set<nat>) | Resolved

  datatype Clear = Clear(phase: ClearPhase, promisesAtCall: nat, handlesAtCall: nat, swept: nat)

  datatype State = State(
    entries: seq<Entry>, inflight: map<Id, nat>, teardowns: map<Id, nat>,
    promises: seq<Promise>, torn: seq<Teardown>, handles: seq<Handle>, clears: seq<Clear>, clock: nat)

  function Initial(): State {
    State([], map[], map[], [], [], [], [], 0)
  }

  // ----------------------------------------------------------------- operations

  /** Position of an id in the Map, if present. */
  function Find(entries: seq<Entry>, id: Id): (r: Option<nat>)
    ensures r.Some? ==> r.value < |entries| && entries[r.value].id == id
    ensures r.None? ==> forall a :: 0 <= a < |entries| ==> entries[a].id != id
  {
    if entries == [] then None
    else if entries[0].id == id then Some(0)
    else
      var r := Find(entries[1..], id);
      assert forall a :: 1 <= a < |entries| ==> entries[a] == entries[1..][a - 1];
      if r.None? then None else Some(r.value + 1)
  }

  /** Delete and re-insert: the entry becomes the newest. */
  function Touch(s: State, a: nat): State
    requires a < |s.entries|
  {
    s.(entries := s.entries[..a] + s.entries[a + 1..] + [s.entries[a].(used := s.clock)], clock := s.clock + 1)
  }

  function SetPhase(s: State, p: nat, phase: Phase): State
    requires p < |s.promises|
  {
    s.(promises := s.promises[p := s.promises[p].(phase := phase)])
  }

  /** A hit touches; a second open joins the promise in flight; a miss waits for the id's teardown or builds. */
  function ApplyOpen(s: State, id: Id): State {
    var found := Find(s.entries, id);
    if found.Some? then Touch(s, found.value)
    else if id in s.inflight then s
    else
      var phase := if id in s.teardowns then AwaitTeardown(s.teardowns[id]) else Building;
      s.(promises := s.promises + [Promise(id, phase)], inflight := s.inflight[id := |s.promises|])
  }

  function ApplyBuilt(s: State, p: nat, ok: bool): State
    requires p < |s.promises|
  {
    if ok then
      SetPhase(s, p, Built(|s.handles|)).(handles := s.handles + [Handle(s.promises[p].id, p, Unpublished)])
    else SetPhase(s, p, Failed)
  }

  /** Drop the oldest entry and track its disposal. */
  function DisposeOldest(s: State): State
    requires s.entries != [] && s.entries[0].handle < |s.handles|
  {
    var e, t := s.entries[0], |s.torn|;
    s.(entries := s.entries[1..],
       torn := s.torn + [Teardown(e.id, e.handle, false, false)],
       teardowns := s.teardowns[e.id := t],
       handles := s.handles[e.handle := s.handles[e.handle].(status := Torn(t))])
  }

  ghost predicate EntryHandles(s: State) {
    forall a :: 0 <= a < |s.entries| ==> s.entries[a].handle < |s.handles|
  }

  /** Evict while more than `keep` entries are left. */
  function Evict(s: State, keep: nat): (t: State)
    requires EntryHandles(s)
    decreases |s.entries|
  {
    if |s.entries| > keep then Evict(DisposeOldest(s), keep) else s
  }

  function Insert(s: State, p: nat, h: nat): State
    requires p < |s.promises| && h < |s.handles|
  {
    var id := s.promises[p].id;
    SetPhase(s, p, Published(h)).(
      entries := s.entries + [Entry(id, h, s.clock)], clock := s.clock + 1,
      handles := s.handles[h := s.handles[h].(status := Cached)])
  }

  /** The promise resolves: publish the handle, then evict down to the cap. */
  function ApplyPublish(s: State, p: nat, maxDatasets: nat): State
    requires EntryHandles(s) && p < |s.promises| && s.promises[p].phase.Built? && s.promises[p].phase.handle < |s.handles|
  {
    Evict(Insert(s, p, s.promises[p].phase.handle), maxDatasets)
  }

  /** `finally`: the promise leaves the in-flight map. */
  function ApplyUnregister(s: State, p: nat): State
    requires p < |s.promises| && (s.promises[p].phase.Published? || s.promises[p].phase.Failed?)
  {
    var phase := s.promises[p].phase;
    SetPhase(s, p, Gone(if phase.Published? then Some(phase.handle) else None)).(inflight := s.inflight - {s.promises[p].id})
  }

  /** A tracked teardown drops its own entry, unless a later one replaced it. */
  function ApplyUntrack(s: State, t: nat): State
    requires t < |s.torn|
  {
    var id, u := s.torn[t].id, s.(torn := s.torn[t := s.torn[t].(untracked := true)]);
    if id in s.teardowns && s.teardowns[id] == t then u.(teardowns := s.teardowns - {id}) else u
  }

  function Indices(from: nat, to: nat): (r: set<nat>)
    ensures forall t :: t in r <==> from <= t < to
  {
    if from >= to then {} else Indices(from, to - 1) + {to - 1}
  }

  /** Await the builds in flight once more, or sweep every entry. */
  function ApplyRecheck(s: State, c: nat): State
    requires EntryHandles(s) && c < |s.clears|
  {
    if s.inflight != map[] then s.(clears := s.clears[c := s.clears[c].(phase := Settling(s.inflight.Values))])
    else
      var swept := Evict(s, 0);
      swept.(clears := s.clears[c := s.clears[c].(phase := Disposing(Indices(|s.torn|, |swept.torn|)), swept := |s.handles|)])
  }

  // ---------------------------------------------------------------------- steps

  datatype Step =
    | Open(id: Id)
    | StartBuild(promise: nat)
    | BuildEnds(promise: nat, ok: bool)
    | Publish(promise: nat)
    | Unregister(promise: nat)
    | Settle(teardown: nat)
    | Untrack(teardown: nat)
    | CallClear
    | Recheck(clear: nat)
    | Drain(clear: nat)
    | Resolve(clear: nat)

  ghost predicate AllGone(s: State, ps: set<nat>) {
    forall p :: p in ps ==> p < |s.promises| && s.promises[p].phase.Gone?
  }

  ghost predicate AllSettled(s: State, ts: set<nat>) {
    forall t :: t in ts ==> t < |s.torn| && s.torn[t].settled
  }

  ghost predicate Enabled(s: State, step: Step) {
    match step
    case Open(_) => true
    case StartBuild(p) =>
      && p < |s.promises| && s.promises[p].phase.AwaitTeardown?
      && s.promises[p].phase.teardown < |s.torn| && s.torn[s.promises[p].phase.teardown].settled
    case BuildEnds(p, _) => p < |s.promises| && s.promises[p].phase.Building?
    case Publish(p) => p < |s.promises| && s.promises[p].phase.Built? && s.promises[p].phase.handle < |s.handles|
    case Unregister(p) => p < |s.promises| && (s.promises[p].phase.Published? || s.promises[p].phase.Failed?)
    case Settle(t) => t < |s.torn| && !s.torn[t].settled
    case Untrack(t) => t < |s.torn| && s.torn[t].settled && !s.torn[t].untracked
    case CallClear => true
    case Recheck(c) => c < |s.clears| && s.clears[c].phase.Settling? && AllGone(s, s.clears[c].phase.promises)
    case Drain(c) => c < |s.clears| && s.clears[c].phase.Disposing? && AllSettled(s, s.clears[c].phase.sweep)
    case Resolve(c) => c < |s.clears| && s.clears[c].phase.Draining? && AllSettled(s, s.clears[c].phase.rest)
  }

  ghost function Apply(s: State, step: Step, maxDatasets: nat): State
    requires EntryHandles(s) && Enabled(s, step)
  {
    match step
    case Open(id) => ApplyOpen(s, id)
    case StartBuild(p) => SetPhase(s, p, Building)
    case BuildEnds(p, ok) => ApplyBuilt(s, p, ok)
    case Publish(p) => ApplyPublish(s, p, maxDatasets)
    case Unregister(p) => ApplyUnregister(s, p)
    case Settle(t) => s.(torn := s.torn[t := s.torn[t].(settled := true)])
    case Untrack(t) => ApplyUntrack(s, t)
    case CallClear =>
      s.(clears := s.clears + [Clear(Settling(s.inflight.Values), |s.promises|, |s.handles|, 0)])
    case Recheck(c) => ApplyRecheck(s, c)
    case Drain(c) => s.(clears := s.clears[c := s.clears[c].(phase := Draining(s.teardowns.Values))])
    case Resolve(c) => s.(clears := s.clears[c := s.clears[c].(phase := Resolved)])
  }

  // ----------------------------------------------------------------- invariants

  predicate Early(phase: Phase) { phase.AwaitTeardown? || phase.Building? || phase.Built? }

  predicate Constructing(phase: Phase) { phase.Building? || phase.Built? }

  /** Entries hold live handles, one per id, in order of last use. */
  ghost predicate EntriesOk(entries: seq<Entry>, handles: seq<Handle>, clock: nat) {
    && (forall a :: 0 <= a < |entries| ==> entries[a].handle < |handles|)
    && (forall a :: 0 <= a < |entries| ==> handles[entries[a].handle].id == entries[a].id && handles[entries[a].handle].status.Cached?)
    && (forall a, b :: 0 <= a < b < |entries| ==> entries[a].id != entries[b].id)
    && (forall a, b :: 0 <= a < b < |entries| ==> entries[a].used < entries[b].used)
    && (forall a :: 0 <= a < |entries| ==> entries[a].used < clock)
  }

  ghost predicate HasHandle(entries: seq<Entry>, h: nat) {
    exists a :: 0 <= a < |entries| && entries[a].handle == h
  }

  ghost predicate HasId(entries: seq<Entry>, id: Id) {
    exists a :: 0 <= a < |entries| && entries[a].id == id
  }

  /** Cached handles are in the Map. */
  ghost predicate CachedOk(entries: seq<Entry>, handles: seq<Handle>) {
    forall h :: 0 <= h < |handles| && handles[h].status.Cached? ==> HasHandle(entries, h)
  }

  /** A torn handle has exactly one teardown, which is its own. */
  ghost predicate TornOk(handles: seq<Handle>, torn: seq<Teardown>) {
    && (forall h :: 0 <= h < |handles| && handles[h].status.Torn? ==>
          handles[h].status.teardown < |torn| && torn[handles[h].status.teardown].handle == h)
    && (forall t :: 0 <= t < |torn| ==> torn[t].handle < |handles|)
    && (forall t :: 0 <= t < |torn| ==> handles[torn[t].handle].id == torn[t].id && handles[torn[t].handle].status == Torn(t))
  }

  /** An unsettled teardown is the tracked one of its id: there is at most one per id. */
  ghost predicate TrackedOk(teardowns: map<Id, nat>, torn: seq<Teardown>) {
    && (forall id :: id in teardowns ==> teardowns[id] < |torn| && torn[teardowns[id]].id == id)
    && (forall t :: 0 <= t < |torn| && !torn[t].settled ==> torn[t].id in teardowns && teardowns[torn[t].id] == t)
  }

  /** An id under teardown is not cached. */
  ghost predicate ApartOk(entries: seq<Entry>, torn: seq<Teardown>) {
    forall t :: 0 <= t < |torn| && !torn[t].settled ==> !HasId(entries, torn[t].id)
  }

  /** One live promise per id. */
  ghost predicate InflightOk(promises: seq<Promise>, inflight: map<Id, nat>) {
    && (forall id :: id in inflight ==>
          inflight[id] < |promises| && promises[inflight[id]].id == id && !promises[inflight[id]].phase.Gone?)
    && (forall p :: 0 <= p < |promises| && !promises[p].phase.Gone? ==>
          promises[p].id in inflight && inflight[promises[p].id] == p)
  }

  /** An id is not cached before its promise publishes. */
  ghost predicate EarlyOk(promises: seq<Promise>, entries: seq<Entry>) {
    forall p :: 0 <= p < |promises| && Early(promises[p].phase) ==> !HasId(entries, promises[p].id)
  }

  /** The unsettled teardowns of an id, if any, are only `t`. */
  ghost predicate OnlyTeardown(torn: seq<Teardown>, id: Id, t: int) {
    forall u :: 0 <= u < |torn| && !torn[u].settled && torn[u].id == id ==> u == t
  }

  /** Builds run beside no teardown of their id; a promise that waits, waits for the one there is. */
  ghost predicate BuildsOk(promises: seq<Promise>, torn: seq<Teardown>) {
    && (forall p :: 0 <= p < |promises| && Constructing(promises[p].phase) ==> OnlyTeardown(torn, promises[p].id, -1))
    && (forall p :: 0 <= p < |promises| && promises[p].phase.AwaitTeardown? ==>
          promises[p].phase.teardown < |torn| && OnlyTeardown(torn, promises[p].id, promises[p].phase.teardown))
  }

  /** A published handle of this id and promise. */
  ghost predicate Made(h: Handle, id: Id, p: nat) {
    h.id == id && h.maker == p && !h.status.Unpublished?
  }

  /** Each promise and the handle it made. */
  ghost predicate ResultsOk(promises: seq<Promise>, handles: seq<Handle>) {
    && (forall p :: 0 <= p < |promises| && promises[p].phase.Built? ==>
          promises[p].phase.handle < |handles|
          && handles[promises[p].phase.handle] == Handle(promises[p].id, p, Unpublished))
    && (forall h :: 0 <= h < |handles| && handles[h].status.Unpublished? ==>
          handles[h].maker < |promises| && promises[handles[h].maker].phase == Built(h))
    && (forall p :: 0 <= p < |promises| && promises[p].phase.Published? ==>
          promises[p].phase.handle < |handles| && Made(handles[promises[p].phase.handle], promises[p].id, p))
    && (forall p :: 0 <= p < |promises| && promises[p].phase.Gone? && promises[p].phase.result.Some? ==>
          promises[p].phase.result.value < |handles| && Made(handles[promises[p].phase.result.value], promises[p].id, p))
    && (forall h :: 0 <= h < |handles| && !handles[h].status.Unpublished? ==>
          handles[h].maker < |promises| && EndsWith(promises[handles[h].maker].phase, h))
  }

  /** The promise resolves, or has resolved, with this handle. */
  predicate EndsWith(phase: Phase, h: nat) { phase == Published(h) || phase == Gone(Some(h)) }

  ghost predicate TornBefore(s: State, n: nat) {
    n <= |s.handles| && forall h :: 0 <= h < n ==> s.handles[h].status.Torn?
  }

  ghost predicate SettledOrIn(s: State, n: nat, ts: set<nat>)
    requires TornBefore(s, n)
  {
    forall h :: 0 <= h < n ==>
      s.handles[h].status.teardown < |s.torn|
      && (s.torn[s.handles[h].status.teardown].settled || s.handles[h].status.teardown in ts)
  }

  ghost predicate GoneBefore(s: State, promises: nat, handles: nat) {
    promises <= |s.promises|
    && forall p :: 0 <= p < promises ==>
        s.promises[p].phase.Gone? && (s.promises[p].phase.result.Some? ==> s.promises[p].phase.result.value < handles)
  }

  /** How far a clear has got with the handles and promises of its call. */
  ghost predicate ClearOk(s: State, c: Clear) {
    && c.promisesAtCall <= |s.promises| && c.handlesAtCall <= |s.handles|
    && (c.phase.Settling? ==> forall p :: 0 <= p < c.promisesAtCall ==> p in c.phase.promises || s.promises[p].phase.Gone?)
    && (!c.phase.Settling? ==> c.handlesAtCall <= c.swept && TornBefore(s, c.swept) && GoneBefore(s, c.promisesAtCall, c.swept))
    && (c.phase.Settling? ==> forall p :: p in c.phase.promises ==> p < |s.promises|)
    && (c.phase.Disposing? ==> forall t :: t in c.phase.sweep ==> t < |s.torn|)
    && (c.phase.Draining? ==> forall t :: t in c.phase.rest ==> t < |s.torn|)
    && (c.phase.Draining? ==> SettledOrIn(s, c.swept, c.phase.rest))
    && (c.phase.Resolved? ==> SettledOrIn(s, c.swept, {}))
  }

  ghost predicate ClearsOk(s: State) {
    forall c :: 0 <= c < |s.clears| ==> ClearOk(s, s.clears[c])
  }

  ghost predicate Core(s: State) {
    && EntriesOk(s.entries, s.handles, s.clock) && CachedOk(s.entries, s.handles) && TornOk(s.handles, s.torn)
    && TrackedOk(s.teardowns, s.torn) && ApartOk(s.entries, s.torn) && InflightOk(s.promises, s.inflight)
    && EarlyOk(s.promises, s.entries) && BuildsOk(s.promises, s.torn) && ResultsOk(s.promises, s.handles)
  }

  ghost predicate Inv(s: State, maxDatasets: nat) {
    Core(s) && ClearsOk(s) && |s.entries| <= maxDatasets
  }
}
