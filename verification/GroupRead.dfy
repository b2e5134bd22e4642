/** Reading several arrays of a group with one selection through one shared byte budget. */
module GroupRead {
  import opened Vectors
  import opened ChunkIndexing
  import opened ArrayModel
  import opened ArrayMeaning
  import opened ArrayRead
  import opened ArrayLoad
  import opened Loader
  import opened LoaderSafety
  import opened LoaderRuns

  datatype NamedArray = NamedArray(name: string, arr: ZarrArray)

  datatype GroupResult = Results(values: map<string, seq<Elem>>) | Threw(job: nat)

  /** The arrays that open, in the order asked; names that do not open are skipped. */
  function Opened(names: seq<string>, open: string -> Option<ZarrArray>): seq<NamedArray> {
    if names == [] then []
    else if open(names[0]).None? then Opened(names[1..], open)
    else [NamedArray(names[0], open(names[0]).value)] + Opened(names[1..], open)
  }

  /** What is opened are the arrays under those of the names that open. */
  lemma {:induction false} OpenedAreNamed(names: seq<string>, open: string -> Option<ZarrArray>)
    ensures forall i :: 0 <= i < |Opened(names, open)| ==>
              Opened(names, open)[i].name in names && open(Opened(names, open)[i].name) == Some(Opened(names, open)[i].arr)
    ensures forall name :: name in names && open(name).Some? ==> NameOpened(Opened(names, open), name)
  {
    hide NameOpened;
    if names != [] {
      OpenedAreNamed(names[1..], open);
      var rest, r := Opened(names[1..], open), Opened(names, open);
      assert names == [names[0]] + names[1..];
      forall name | name in names && open(name).Some? ensures NameOpened(r, name) {
        if open(names[0]).Some? {
          NamePrepended(NamedArray(names[0], open(names[0]).value), rest, name);
        }
      }
    }
  }

  ghost predicate NameOpened(arrays: seq<NamedArray>, name: string) {
    exists i :: 0 <= i < |arrays| && arrays[i].name == name
  }

  lemma NamePrepended(a: NamedArray, rest: seq<NamedArray>, name: string)
    ensures name == a.name || NameOpened(rest, name) ==> NameOpened([a] + rest, name)
  {
    var r := [a] + rest;
    assert r[0].name == a.name;
    if NameOpened(rest, name) {
      var i :| 0 <= i < |rest| && rest[i].name == name;
      assert r[i + 1].name == name;
    }
  }

  /** Opening keeps the order asked, name by name, so the first error is that of the first failed name. */
  lemma {:induction false} OpenedInOrder(a: seq<string>, b: seq<string>, open: string -> Option<ZarrArray>)
    ensures Opened(a + b, open) == Opened(a, open) + Opened(b, open)
    ensures |a| == 1 ==> Opened(a, open) == if open(a[0]).Some? then [NamedArray(a[0], open(a[0]).value)] else []
  {
    if a == [] {
      assert a + b == b;
    } else {
      OpenedInOrder(a[1..], b, open);
      assert (a + b)[1..] == a[1..] + b;
    }
  }

  /** Run `i` of the loader reads array `i` over the selection, or whole. */
  ghost predicate RunReads(cfg: Config, i: nat, arr: ZarrArray, selection: Option<Selection>)
    requires i < |cfg.runs|
  {
    && cfg.runs[i].arr == arr && ValidStore(arr, cfg.store) && ValidWanted(arr, selection)
    && cfg.runs[i].start <= cfg.runs[i].stop <= |cfg.jobs|
    && cfg.jobs[cfg.runs[i].start..cfg.runs[i].stop] == WantedTasks(arr, selection)
  }

  ghost predicate ReadsArray(cfg: Config, s: State, i: nat, arr: ZarrArray, selection: Option<Selection>)
    requires i < |cfg.runs| && i < |s.runs|
  {
    RunReads(cfg, i, arr, selection) && s.runs[i].pc.Finished?
  }

  ghost predicate AllRead(cfg: Config, s: State, arrays: seq<NamedArray>, selection: Option<Selection>) {
    && Inv(cfg, s) && |cfg.runs| == |s.runs| == |arrays|
    && forall i :: 0 <= i < |arrays| ==> ReadsArray(cfg, s, i, arrays[i].arr, selection)
  }

  ghost predicate HoldsArray(cfg: Config, values: map<string, seq<Elem>>, a: NamedArray, selection: Option<Selection>) {
    && ValidStore(a.arr, cfg.store) && ValidWanted(a.arr, selection)
    && a.name in values && values[a.name] == WantedValues(a.arr, cfg.store, selection)
    && HoldsWanted(a.arr, cfg.store, selection, values[a.name])
  }

  /** None of the first `n` runs has failed. */
  ghost predicate NoneFailed(s: State, n: nat)
    requires n <= |s.runs|
  {
    forall i :: 0 <= i < n ==> !s.runs[i].failed
  }

  /** The keys are the names of these arrays. */
  ghost predicate Named(values: map<string, seq<Elem>>, arrays: seq<NamedArray>) {
    forall name :: name in values <==> exists k :: 0 <= k < |arrays| && arrays[k].name == name
  }

  lemma NamedGrows(values: map<string, seq<Elem>>, arrays: seq<NamedArray>, i: nat, output: seq<Elem>)
    requires i < |arrays| && Named(values, arrays[..i])
    ensures Named(values[arrays[i].name := output], arrays[..i + 1])
  {
    var more, done, longer := values[arrays[i].name := output], arrays[..i], arrays[..i + 1];
    assert longer[i].name == arrays[i].name;
    forall name | name in more ensures exists k :: 0 <= k < |longer| && longer[k].name == name {
      if name != arrays[i].name {
        var k :| 0 <= k < i && done[k].name == name;
        assert longer[k].name == name;
      }
    }
    forall k | 0 <= k < |longer| ensures longer[k].name in more {
      assert k < i ==> done[k].name == longer[k].name;
    }
  }

  method FirstFailure(cfg: Config, s: State) returns (first: Option<nat>)
    requires Inv(cfg, s)
    ensures first.None? ==> NoneFailed(s, |s.runs|)
    ensures first.Some? ==> first.value < |s.runs| && NoneFailed(s, first.value) && s.runs[first.value].failed
  {
    hide Inv;
    for i := 0 to |s.runs|
      invariant NoneFailed(s, i)
    {
      if s.runs[i].failed {
        return Some(i);
      }
    }
    return None;
  }

  method CollectResults(cfg: Config, s: State, arrays: seq<NamedArray>, open: string -> Option<ZarrArray>, selection: Option<Selection>)
    returns (values: map<string, seq<Elem>>)
    requires AllRead(cfg, s, arrays, selection) && NoneFailed(s, |s.runs|)
    requires forall k :: 0 <= k < |arrays| ==> open(arrays[k].name) == Some(arrays[k].arr)
    ensures forall i :: 0 <= i < |arrays| ==> HoldsArray(cfg, values, arrays[i], selection)
    ensures Named(values, arrays)
  {
    hide Inv, ReadsArray, HoldsArray, Named;
    values := map[];
    NamedNone();
    for i := 0 to |arrays|
      invariant forall k :: 0 <= k < i ==> HoldsArray(cfg, values, arrays[k], selection)
      invariant Named(values, arrays[..i])
    {
      var output := ReadOne(cfg, s, i, arrays[i], selection);
      SetHolds(cfg, values, arrays, i, open, output, selection);
      NamedGrows(values, arrays, i, output);
      values := values[arrays[i].name := output];
    }
    assert arrays[..|arrays|] == arrays;
  }

  lemma NamedNone()
    ensures forall arrays: seq<NamedArray> :: Named(map[], arrays[..0])
  {
  }

  /**
   The settled reads of a group: the error of the first failed array, or else every array that
   opens with its logical contents. Either way the whole shared budget is free again.
   */
  method ReadMultiple(names: seq<string>, open: string -> Option<ZarrArray>, selection: Option<Selection>, cfg: Config, s: State)
    returns (r: GroupResult)
    requires AllRead(cfg, s, Opened(names, open), selection)
    ensures r.Threw? ==> exists i :: 0 <= i < |s.runs| && NoneFailed(s, i) && s.runs[i].failed && s.runs[i].firstError == Some(r.job)
    ensures r.Results? <==> NoneFailed(s, |s.runs|)
    ensures r.Results? ==> forall i :: 0 <= i < |Opened(names, open)| ==> HoldsArray(cfg, r.values, Opened(names, open)[i], selection)
    ensures r.Results? ==> Named(r.values, Opened(names, open))
    ensures r.Results? ==> forall name :: name in r.values <==> name in names && open(name).Some?
    ensures s.budget.available == s.budget.capacity && s.budget.waiters == []
  {
    hide Inv, ReadsArray, HoldsArray, Named;
    var arrays := Opened(names, open);
    OpenedAreNamed(names, open);
    BudgetFree(cfg, s, arrays, selection);
    var first := FirstFailure(cfg, s);
    if first.Some? {
      FailedHasError(cfg, s, first.value);
      return Threw(s.runs[first.value].firstError.value);
    }
    var values := CollectResults(cfg, s, arrays, open, selection);
    KeysAreNames(names, open, values);
    return Results(values);
  }

  lemma KeysAreNames(names: seq<string>, open: string -> Option<ZarrArray>, values: map<string, seq<Elem>>)
    requires Named(values, Opened(names, open))
    ensures forall name :: name in values <==> name in names && open(name).Some?
  {
    hide Opened;
    OpenedAreNamed(names, open);
    forall name ensures name in values <==> name in names && open(name).Some? {
      assert NameOpened(Opened(names, open), name) <==> name in values;
    }
  }

  method ReadOne(cfg: Config, s: State, i: nat, a: NamedArray, selection: Option<Selection>) returns (values: seq<Elem>)
    requires Inv(cfg, s) && i < |cfg.runs| == |s.runs| && ReadsArray(cfg, s, i, a.arr, selection) && !s.runs[i].failed
    ensures HoldsArray(cfg, map[a.name := values], a, selection)
  {
    hide Inv, WantedValues, ValidStore, WantedTasks, ValidWanted, HoldsWanted;
    WantedRank(a.arr, selection);
    WantedIsHeld(a.arr, cfg.store, selection);
    var output := ReadFromRun(cfg, s, i, a.arr, selection, ChunksOf(s.runs[i].log));
    values := output[..];
  }

  lemma SetHolds(cfg: Config, values: map<string, seq<Elem>>, arrays: seq<NamedArray>, i: nat, open: string -> Option<ZarrArray>,
    output: seq<Elem>, selection: Option<Selection>)
    requires i < |arrays| && forall k :: 0 <= k < |arrays| ==> open(arrays[k].name) == Some(arrays[k].arr)
    requires forall k :: 0 <= k < i ==> HoldsArray(cfg, values, arrays[k], selection)
    requires HoldsArray(cfg, map[arrays[i].name := output], arrays[i], selection)
    ensures forall k :: 0 <= k <= i ==> HoldsArray(cfg, values[arrays[i].name := output], arrays[k], selection)
  {
    hide WantedValues, ValidStore, ValidWanted, HoldsWanted;
    forall k | 0 <= k <= i ensures HoldsArray(cfg, values[arrays[i].name := output], arrays[k], selection) {
      if k < i {
        assert HoldsArray(cfg, values, arrays[k], selection);
      }
    }
  }

  lemma BudgetFree(cfg: Config, s: State, arrays: seq<NamedArray>, selection: Option<Selection>)
    requires AllRead(cfg, s, arrays, selection)
    ensures s.budget.available == s.budget.capacity && s.budget.waiters == []
  {
    hide Inv, WantedTasks, ValidStore, ValidWanted;
    forall r | 0 <= r < |s.runs| ensures s.runs[r].pc.Finished? {
      assert ReadsArray(cfg, s, r, arrays[r].arr, selection);
    }
    AllFinishedFreesBudget(cfg, s);
  }

  lemma FailedHasError(cfg: Config, s: State, r: nat)
    requires Inv(cfg, s) && r < |s.runs|
    ensures s.runs[r].failed <==> s.runs[r].firstError.Some?
  {
    hide BudgetOk, CacheOk, FetchedExists, LogOk, MissingOk;
    RunOf(cfg, s, r);
  }

  lemma FinishedReads(cfg: Config, capacity: int, cache: map<string, Bytes>, s: State, arrays: seq<NamedArray>, selection: Option<Selection>)
    requires |cfg.runs| == |arrays| && forall i :: 0 <= i < |arrays| ==> RunReads(cfg, i, arrays[i].arr, selection)
    requires Reaches(cfg, capacity, cache, s) && !Unfinished(s)
    ensures AllRead(cfg, s, arrays, selection)
  {
    hide Reaches, RunReads, RunsInv, BudgetOk, CacheOk, FetchedExists;
    ReachedSatisfiesInv(cfg, capacity, cache, s);
  }

  /** The whole call: the arrays' loads run to their end in any interleaving, then the reads settle. */
  method LoadAndReadMultiple(names: seq<string>, open: string -> Option<ZarrArray>, selection: Option<Selection>, cfg: Config,
    capacity: int, cache: map<string, Bytes>)
    returns (r: GroupResult, s: State)
    requires |cfg.runs| == |Opened(names, open)| && ValidConfig(cfg) && CacheOk(cfg, cache)
    requires forall i :: 0 <= i < |cfg.runs| ==> RunReads(cfg, i, Opened(names, open)[i].arr, selection)
    ensures Reaches(cfg, capacity, cache, s) && !Unfinished(s)
    ensures r.Results? <==> NoneFailed(s, |s.runs|)
    ensures r.Results? ==> forall i :: 0 <= i < |Opened(names, open)| ==> HoldsArray(cfg, r.values, Opened(names, open)[i], selection)
    ensures r.Results? ==> Named(r.values, Opened(names, open))
    ensures r.Results? ==> forall name :: name in r.values <==> name in names && open(name).Some?
    ensures r.Threw? ==> exists i :: 0 <= i < |s.runs| && NoneFailed(s, i) && s.runs[i].failed && s.runs[i].firstError == Some(r.job)
  {
    hide Reaches, Unfinished, RunReads, HoldsArray, Named, Inv, ValidConfig, CacheOk;
    s := RunToEnd(cfg, capacity, cache);
    FinishedReads(cfg, capacity, cache, s, Opened(names, open), selection);
    r := ReadMultiple(names, open, selection, cfg, s);
  }
}
