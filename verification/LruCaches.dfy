/** The byte-bounded LRU of decoded chunks, and the expiring cache built on it. */
module LruCaches {
  import opened Vectors
  import opened ArrayModel

  datatype Entry = Entry(key: string, data: Bytes)

  /** Bytes charged for an entry; an empty value is charged its key. */
  function CostOf(e: Entry): nat {
    if |e.data| > 0 then |e.data| else |e.key| + 16
  }

  function Total(es: seq<Entry>): nat {
    if es == [] then 0 else CostOf(es[0]) + Total(es[1..])
  }

  /** The bytes a cache is charged: each value's size or, for an empty value, that of its key and 16 more. */
  ghost function Charges(es: seq<Entry>): (r: seq<nat>)
    ensures |r| == |es|
  {
    seq(|es|, i requires 0 <= i < |es| => if |es[i].data| > 0 then |es[i].data| else |es[i].key| + 16)
  }

  ghost function Size(es: seq<Entry>): nat { Sum(Charges(es)) }

  lemma {:induction false} TotalIsSize(es: seq<Entry>)
    ensures Total(es) == Size(es)
  {
    if es != [] {
      TotalIsSize(es[1..]);
      assert Charges(es)[1..] == Charges(es[1..]);
    }
  }

  predicate DistinctKeys(es: seq<Entry>) {
    forall i, j :: 0 <= i < j < |es| ==> es[i].key != es[j].key
  }

  predicate Holds(es: seq<Entry>, key: string) {
    exists i :: 0 <= i < |es| && es[i].key == key
  }

  /** The value under a key, in insertion order, oldest first. */
  function Lookup(es: seq<Entry>, key: string): (r: Option<Bytes>)
    ensures r.Some? <==> Holds(es, key)
    ensures r.Some? ==> Entry(key, r.value) in es
  {
    if es == [] then None
    else if es[0].key == key then Some(es[0].data)
    else
      assert Holds(es, key) <==> Holds(es[1..], key) by { HoldsTail(es, key); }
      Lookup(es[1..], key)
  }

  lemma HoldsTail(es: seq<Entry>, key: string)
    requires es != [] && es[0].key != key
    ensures Holds(es, key) <==> Holds(es[1..], key)
  {
    if Holds(es, key) {
      var i :| 0 <= i < |es| && es[i].key == key;
      assert es[1..][i - 1].key == key;
    }
    if Holds(es[1..], key) {
      var i :| 0 <= i < |es[1..]| && es[1..][i].key == key;
      assert es[i + 1].key == key;
    }
  }

  function Without(es: seq<Entry>, key: string): (r: seq<Entry>)
    ensures |r| <= |es|
  {
    if es == [] then []
    else if es[0].key == key then es[1..]
    else [es[0]] + Without(es[1..], key)
  }

  /** Evict from the oldest end while over budget, but keep the newest entry. */
  function Trim(es: seq<Entry>, maxBytes: nat): seq<Entry> {
    if Total(es) > maxBytes && |es| > 1 then Trim(es[1..], maxBytes) else es
  }

  function Touched(es: seq<Entry>, key: string): seq<Entry> {
    match Lookup(es, key)
    case None => es
    case Some(data) => Without(es, key) + [Entry(key, data)]
  }

  function Stored(es: seq<Entry>, key: string, data: Bytes, maxBytes: nat): seq<Entry> {
    Trim(Without(es, key) + [Entry(key, data)], maxBytes)
  }

  // --------------------------------------------------------- about these lists

  lemma {:induction false} TotalAppend(a: seq<Entry>, b: seq<Entry>)
    ensures Total(a + b) == Total(a) + Total(b)
  {
    if a == [] {
      assert a + b == b;
    } else {
      TotalAppend(a[1..], b);
      assert (a + b)[1..] == a[1..] + b;
    }
  }

  /** Removing a key removes its one entry, with its cost, and keeps the order of the rest. */
  lemma {:induction false} WithoutSplits(es: seq<Entry>, key: string)
    requires DistinctKeys(es)
    ensures Lookup(es, key).None? ==> Without(es, key) == es
    ensures Lookup(es, key).Some? ==> exists i :: IsRemoval(es, key, i)
    ensures Total(es) == Total(Without(es, key)) + if Lookup(es, key).Some? then CostOf(Entry(key, Lookup(es, key).value)) else 0
  {
    if es != [] {
      if es[0].key == key {
        assert IsRemoval(es, key, 0);
      } else {
        var rest := es[1..];
        assert forall i :: 0 <= i < |rest| ==> rest[i] == es[i + 1];
        WithoutSplits(rest, key);
        TotalAppend([es[0]], Without(rest, key));
        if Lookup(rest, key).Some? {
          var i :| IsRemoval(rest, key, i);
          RemovalShifts(es, key, i);
        }
      }
    }
  }

  ghost predicate IsRemoval(es: seq<Entry>, key: string, i: int) {
    0 <= i < |es| && es[i].key == key && Lookup(es, key) == Some(es[i].data) && Without(es, key) == es[..i] + es[i + 1..]
  }

  lemma RemovalShifts(es: seq<Entry>, key: string, i: nat)
    requires es != [] && es[0].key != key && IsRemoval(es[1..], key, i)
    ensures IsRemoval(es, key, i + 1)
  {
    assert [es[0]] + es[1..][..i] == es[..i + 1];
    assert es[1..][i + 1..] == es[i + 2..];
  }

  /** What a trim leaves, and why it evicted no less. */
  lemma {:induction false} TrimShortestPrefix(es: seq<Entry>, maxBytes: nat) returns (n: nat)
    ensures n <= |es| && Trim(es, maxBytes) == es[n..]
    ensures forall m :: 0 <= m < n ==> Size(es[m..]) > maxBytes && |es| - m > 1
    ensures Size(Trim(es, maxBytes)) <= maxBytes || |Trim(es, maxBytes)| == 1
    ensures es != [] ==> Trim(es, maxBytes) != [] && Trim(es, maxBytes)[|Trim(es, maxBytes)| - 1] == es[|es| - 1]
  {
    hide Size;
    TotalIsSize(es);
    if Total(es) > maxBytes && |es| > 1 {
      var k := TrimShortestPrefix(es[1..], maxBytes);
      n := k + 1;
      forall m | 0 <= m < n ensures Size(es[m..]) > maxBytes && |es| - m > 1 {
        if m == 0 {
          assert es[0..] == es;
        } else {
          assert es[m..] == es[1..][m - 1..];
        }
      }
      assert es[n..] == es[1..][k..];
    } else {
      n := 0;
    }
  }

  // ------------------------------------------------- runs of cache operations

  /**
   The cache beside what was asked of it: the last value set under each key since it was last
   deleted or cleared, and at which operation each key was last set or hit.
   */
  datatype Ledger = Ledger(entries: seq<Entry>, latest: map<string, Bytes>, touched: map<string, int>, clock: int)

  datatype Op = Get(key: string) | Set(key: string, data: Bytes) | Delete(key: string) | Clear

  function Apply(l: Ledger, op: Op, maxBytes: nat): Ledger {
    match op
    case Get(key) =>
      if Lookup(l.entries, key).Some? then
        Ledger(Touched(l.entries, key), l.latest, l.touched[key := l.clock], l.clock + 1)
      else l.(clock := l.clock + 1)
    case Set(key, data) =>
      Ledger(Stored(l.entries, key, data, maxBytes), l.latest[key := data], l.touched[key := l.clock], l.clock + 1)
    case Delete(key) => l.(entries := Without(l.entries, key), latest := l.latest - {key}, clock := l.clock + 1)
    case Clear => l.(entries := [], latest := map[], clock := l.clock + 1)
  }

  ghost predicate Fresh(l: Ledger, e: Entry) {
    && e.key in l.latest && l.latest[e.key] == e.data
    && e.key in l.touched && l.touched[e.key] < l.clock
  }

  /** Keys once each, values the latest ones, entries in order of last use. */
  ghost predicate Sound(l: Ledger) {
    && DistinctKeys(l.entries)
    && (forall i :: 0 <= i < |l.entries| ==> Fresh(l, l.entries[i]))
    && (forall i, j :: 0 <= i < j < |l.entries| ==> l.touched[l.entries[i].key] < l.touched[l.entries[j].key])
  }

  lemma SkipKeepsSound(l: Ledger, i: nat, rest: seq<Entry>)
    requires Sound(l) && i < |l.entries| && rest == l.entries[..i] + l.entries[i + 1..]
    ensures Sound(l.(entries := rest)) && !Holds(rest, l.entries[i].key)
  {
    assert forall k :: 0 <= k < |rest| ==> rest[k] == l.entries[if k < i then k else k + 1];
  }

  lemma RemovalKeepsSound(l: Ledger, key: string)
    requires Sound(l)
    ensures Sound(l.(entries := Without(l.entries, key)))
    ensures !Holds(Without(l.entries, key), key)
  {
    hide Lookup, Without, Sound, Total;
    DistinctOf(l);
    WithoutSplits(l.entries, key);
    if Lookup(l.entries, key).Some? {
      var i :| IsRemoval(l.entries, key, i);
      SkipKeepsSound(l, i, Without(l.entries, key));
    }
  }

  lemma AppendKeepsSound(l: Ledger, key: string, data: Bytes)
    requires Sound(l) && !Holds(l.entries, key)
    ensures Sound(Ledger(l.entries + [Entry(key, data)], l.latest[key := data], l.touched[key := l.clock], l.clock + 1))
  {
    assert forall i :: 0 <= i < |l.entries| ==> l.entries[i].key != key;
  }

  lemma SuffixKeepsSound(l: Ledger, n: nat)
    requires Sound(l) && n <= |l.entries|
    ensures Sound(l.(entries := l.entries[n..]))
  {
    var rest := l.entries[n..];
    assert forall i :: 0 <= i < |rest| ==> rest[i] == l.entries[n + i];
  }

  lemma ForgetKeepsSound(l: Ledger, key: string)
    requires Sound(l) && !Holds(l.entries, key)
    ensures Sound(l.(latest := l.latest - {key}))
  {
    assert forall i :: 0 <= i < |l.entries| ==> l.entries[i].key != key;
  }

  lemma OpKeepsSound(l: Ledger, op: Op, maxBytes: nat)
    requires Sound(l)
    ensures Sound(Apply(l, op, maxBytes))
  {
    hide Sound, Lookup, Without, Trim;
    match op
    case Get(key) =>
      if Lookup(l.entries, key).Some? {
        var data := Lookup(l.entries, key).value;
        HitIsLatest(l, key);
        RemovalKeepsSound(l, key);
        AppendKeepsSound(l.(entries := Without(l.entries, key)), key, data);
        assert l.latest[key := data] == l.latest;
      } else {
        TickKeepsSound(l);
      }
    case Set(key, data) =>
      RemovalKeepsSound(l, key);
      var without := l.(entries := Without(l.entries, key));
      AppendKeepsSound(without, key, data);
      var longer := Ledger(without.entries + [Entry(key, data)], l.latest[key := data], l.touched[key := l.clock], l.clock + 1);
      var n := TrimShortestPrefix(longer.entries, maxBytes);
      SuffixKeepsSound(longer, n);
    case Delete(key) =>
      RemovalKeepsSound(l, key);
      ForgetKeepsSound(l.(entries := Without(l.entries, key)), key);
      TickKeepsSound(l.(entries := Without(l.entries, key), latest := l.latest - {key}));
    case Clear => EmptyIsSound(l.(clock := l.clock + 1));
  }

  lemma TickKeepsSound(l: Ledger)
    requires Sound(l)
    ensures Sound(l.(clock := l.clock + 1))
  {
    assert forall i :: 0 <= i < |l.entries| ==> Fresh(l, l.entries[i]);
  }

  lemma EmptyIsSound(l: Ledger)
    ensures Sound(l.(entries := [], latest := map[]))
  {
  }

  /** A hit returns the latest value set under the key. */
  lemma HitIsLatest(l: Ledger, key: string)
    requires Sound(l) && Lookup(l.entries, key).Some?
    ensures key in l.latest && Lookup(l.entries, key).value == l.latest[key]
  {
    hide Lookup;
    var e := Entry(key, Lookup(l.entries, key).value);
    var i :| 0 <= i < |l.entries| && l.entries[i] == e;
    assert Fresh(l, l.entries[i]);
  }

  /** Within the byte budget, unless a single entry alone exceeds it. */
  ghost predicate Bounded(es: seq<Entry>, maxBytes: nat) {
    Size(es) <= maxBytes || |es| <= 1
  }

  lemma WithoutShrinks(es: seq<Entry>, key: string)
    requires DistinctKeys(es)
    ensures Total(Without(es, key)) <= Total(es)
  {
    hide Lookup, Without, Total;
    WithoutSplits(es, key);
  }

  /** A hit reorders: neither the count nor the cost of the entries changes. */
  lemma {:induction false} TouchKeepsTotal(es: seq<Entry>, key: string)
    requires DistinctKeys(es)
    ensures Total(Touched(es, key)) == Total(es) && |Touched(es, key)| == |es|
  {
    hide Lookup, Without, Total, Holds;
    WithoutSplits(es, key);
    if Lookup(es, key).Some? {
      var i :| IsRemoval(es, key, i);
      var e := Entry(key, Lookup(es, key).value);
      TotalAppend(Without(es, key), [e]);
      TotalOne(e);
    }
  }

  lemma OpKeepsBound(l: Ledger, op: Op, maxBytes: nat)
    requires Sound(l) && Bounded(l.entries, maxBytes)
    ensures Bounded(Apply(l, op, maxBytes).entries, maxBytes)
  {
    hide Sound, Lookup, Without, Trim, Total, Size;
    DistinctOf(l);
    TotalIsSize(l.entries);
    TotalIsSize(Apply(l, op, maxBytes).entries);
    match op
    case Get(key) => TouchKeepsTotal(l.entries, key);
    case Set(key, data) => var n := TrimShortestPrefix(Candidates(l.entries, key, data), maxBytes);
    case Delete(key) => WithoutShrinks(l.entries, key);
    case Clear => assert Charges([]) == [];
  }

  function AfterRun(l: Ledger, ops: seq<Op>, maxBytes: nat): Ledger
    decreases |ops|
  {
    if ops == [] then l else AfterRun(Apply(l, ops[0], maxBytes), ops[1..], maxBytes)
  }

  /**
   Over every run of operations no stale value is held, eviction order is last-use order, and the
   cache stays within its byte budget or at one entry.
   */
  lemma {:induction false} RunKeepsSound(l: Ledger, ops: seq<Op>, maxBytes: nat)
    requires Sound(l) && Bounded(l.entries, maxBytes)
    ensures Sound(AfterRun(l, ops, maxBytes)) && Bounded(AfterRun(l, ops, maxBytes).entries, maxBytes)
    decreases |ops|
  {
    hide Sound, Apply, Bounded;
    if ops != [] {
      OpKeepsSound(l, ops[0], maxBytes);
      OpKeepsBound(l, ops[0], maxBytes);
      RunKeepsSound(Apply(l, ops[0], maxBytes), ops[1..], maxBytes);
    }
  }

  /** What the operations last left under a key. */
  ghost function LastSet(ops: seq<Op>, key: string): Option<Bytes> {
    if ops == [] then None
    else
      var n := |ops| - 1;
      match ops[n]
      case Set(k, data) => if k == key then Some(data) else LastSet(ops[..n], key)
      case Delete(k) => if k == key then None else LastSet(ops[..n], key)
      case Clear => None
      case Get(_) => LastSet(ops[..n], key)
  }

  /** The operation that last asked for a key or set it. */
  ghost function LastUse(ops: seq<Op>, key: string): int {
    if ops == [] then -1
    else
      var n := |ops| - 1;
      if ops[n] == Get(key) || (ops[n].Set? && ops[n].key == key) then n else LastUse(ops[..n], key)
  }

  /** The ledger tells what the operations say. */
  ghost predicate Tells(l: Ledger, ops: seq<Op>) {
    && l.clock == |ops|
    && (forall key :: LastSet(ops, key) == if key in l.latest then Some(l.latest[key]) else None)
    && (forall i :: 0 <= i < |l.entries| ==>
          l.entries[i].key in l.touched && l.touched[l.entries[i].key] == LastUse(ops, l.entries[i].key))
  }

  lemma {:induction false} AfterLast(l: Ledger, ops: seq<Op>, maxBytes: nat)
    requires ops != []
    ensures AfterRun(l, ops, maxBytes) == Apply(AfterRun(l, ops[..|ops| - 1], maxBytes), ops[|ops| - 1], maxBytes)
    decreases |ops|
  {
    hide Apply;
    var n := |ops| - 1;
    if n > 0 {
      AfterLast(Apply(l, ops[0], maxBytes), ops[1..], maxBytes);
      assert ops[1..][..n - 1] == ops[..n][1..];
    } else {
      assert ops[..0] == [] && ops[1..] == [];
    }
  }

  /** An operation brings in no key but the one it sets. */
  lemma OpBringsIn(l: Ledger, op: Op, maxBytes: nat, e: Entry)
    requires Sound(l) && e in Apply(l, op, maxBytes).entries
    ensures (op.Set? && op.key == e.key) || exists f :: f in l.entries && f.key == e.key
    ensures (op.Get? || op.Delete?) && op.key == e.key ==> op.Get? && Lookup(l.entries, op.key).Some?
    ensures !op.Clear?
  {
    hide Sound, Lookup, Without, Trim, Total, Size;
    DistinctOf(l);
    match op {
      case Get(key) =>
        if Lookup(l.entries, key).Some? {
          TouchReorders(l.entries, key);
        } else {
          HoldsMember(l.entries, e);
        }
      case Set(key, data) =>
        var all := Candidates(l.entries, key, data);
        var n := TrimShortestPrefix(all, maxBytes);
        assert e in all;
        WithoutMembers(l.entries, key);
      case Delete(key) => WithoutMembers(l.entries, key);
      case Clear =>
    }
  }

  lemma HoldsMember(es: seq<Entry>, e: Entry)
    requires e in es
    ensures Lookup(es, e.key).Some?
  {
    hide Lookup;
    var i :| 0 <= i < |es| && es[i] == e;
  }

  lemma WithoutMembers(es: seq<Entry>, key: string)
    requires DistinctKeys(es)
    ensures forall e :: e in Without(es, key) ==> e in es && e.key != key
  {
    hide Lookup, Without, Total;
    WithoutSplits(es, key);
    if Lookup(es, key).Some? {
      var i :| IsRemoval(es, key, i);
      assert forall k :: 0 <= k < |es| && k != i ==> es[k].key != key;
    } else {
      forall e | e in es ensures e.key != key {
        HoldsMember(es, e);
      }
    }
  }

  lemma WithoutExactly(es: seq<Entry>, key: string)
    requires DistinctKeys(es)
    ensures forall e :: e in Without(es, key) <==> e in es && e.key != key
  {
    hide Without, DistinctKeys;
    WithoutMembers(es, key);
    forall e | e in es && e.key != key ensures e in Without(es, key) {
      WithoutKeepsOthers(es, key, e);
    }
  }

  lemma OpTells(l: Ledger, ops: seq<Op>, op: Op, maxBytes: nat)
    requires Sound(l) && Tells(l, ops)
    ensures Tells(Apply(l, op, maxBytes), ops + [op])
  {
    hide Sound, Lookup, Touched, Without, Stored;
    var t, more := Apply(l, op, maxBytes), ops + [op];
    assert more[..|ops|] == ops && more[|ops|] == op;
    forall i | 0 <= i < |t.entries|
      ensures t.entries[i].key in t.touched && t.touched[t.entries[i].key] == LastUse(more, t.entries[i].key)
    {
      OpBringsIn(l, op, maxBytes, t.entries[i]);
    }
  }

  lemma {:induction false} RunTells(ops: seq<Op>, maxBytes: nat)
    ensures var l := AfterRun(Ledger([], map[], map[], 0), ops, maxBytes);
            Sound(l) && Bounded(l.entries, maxBytes) && Tells(l, ops)
    decreases |ops|
  {
    hide Sound, Apply, Bounded;
    if ops == [] {
      NewIsSound(maxBytes);
    } else {
      var n := |ops| - 1;
      RunTells(ops[..n], maxBytes);
      var mid := AfterRun(Ledger([], map[], map[], 0), ops[..n], maxBytes);
      AfterLast(Ledger([], map[], map[], 0), ops, maxBytes);
      OpKeepsSound(mid, ops[n], maxBytes);
      OpKeepsBound(mid, ops[n], maxBytes);
      OpTells(mid, ops[..n], ops[n], maxBytes);
      assert ops == ops[..n] + [ops[n]];
    }
  }

  lemma NewIsSound(maxBytes: nat)
    ensures Sound(Ledger([], map[], map[], 0)) && Bounded([], maxBytes)
  {
  }

  /**
   Every state of a cache, from its creation on: a value is the one last set under its key, entries
   are in the order in which their keys were last asked for or set, and the bytes charged are within
   the budget or those of one entry.
   */
  lemma ReachedIsSound(ops: seq<Op>, maxBytes: nat)
    ensures var es := AfterRun(Ledger([], map[], map[], 0), ops, maxBytes).entries;
            && DistinctKeys(es) && (Size(es) <= maxBytes || |es| <= 1)
            && (forall i :: 0 <= i < |es| ==> LastSet(ops, es[i].key) == Some(es[i].data))
            && (forall i, j :: 0 <= i < j < |es| ==> LastUse(ops, es[i].key) < LastUse(ops, es[j].key))
  {
    hide AfterRun, LastSet, LastUse, Size;
    RunTells(ops, maxBytes);
    var l := AfterRun(Ledger([], map[], map[], 0), ops, maxBytes);
    assert forall i :: 0 <= i < |l.entries| ==> Fresh(l, l.entries[i]);
  }

  /** The entries a set has before it evicts: the others in order of last use, then the new one. */
  function Candidates(es: seq<Entry>, key: string, data: Bytes): seq<Entry> {
    Without(es, key) + [Entry(key, data)]
  }

  lemma LookupUnique(es: seq<Entry>, key: string, i: nat)
    requires DistinctKeys(es) && i < |es| && es[i].key == key
    ensures Lookup(es, key) == Some(es[i].data)
  {
    hide Lookup;
    assert Holds(es, key);
    var e := Entry(key, Lookup(es, key).value);
    var k :| 0 <= k < |es| && es[k] == e;
  }

  lemma SkipKeepsOthers(es: seq<Entry>, i: nat, rest: seq<Entry>, e: Entry)
    requires i < |es| && rest == es[..i] + es[i + 1..] && e in es && e != es[i]
    ensures e in rest
  {
    var k :| 0 <= k < |es| && es[k] == e;
    assert rest[if k < i then k else k - 1] == e;
  }

  lemma WithoutKeepsOthers(es: seq<Entry>, key: string, e: Entry)
    requires DistinctKeys(es) && e in es && e.key != key
    ensures e in Without(es, key)
  {
    hide Lookup, Without, DistinctKeys, Total, Holds;
    WithoutSplits(es, key);
    if Lookup(es, key).Some? {
      var i :| IsRemoval(es, key, i);
      SkipKeepsOthers(es, i, Without(es, key), e);
    }
  }

  /**
   A set holds its value, ends within the budget or with that one entry, and evicts exactly the
   `n` least recently used candidates: evicting fewer would leave the cache over budget.
   */
  lemma SetEvictsShortestPrefix(l: Ledger, key: string, data: Bytes, maxBytes: nat) returns (n: nat)
    requires Sound(l)
    ensures var all, kept := Candidates(l.entries, key, data), Apply(l, Set(key, data), maxBytes).entries;
            && n < |all| && kept == all[n..] && Lookup(kept, key) == Some(data)
            && (Size(kept) <= maxBytes || |kept| == 1)
            && (forall m :: 0 <= m < n ==> Size(all[m..]) > maxBytes)
            && (forall e :: e in l.entries && e.key != key ==> e in all)
            && (forall a, b :: 0 <= a < b < |all| - 1 ==> UsedBefore(l, all[a], all[b]))
  {
    hide Lookup, Without, Trim, Total, Size, IsRemoval;
    var all := Candidates(l.entries, key, data);
    RemovalKeepsSound(l, key);
    n := TrimShortestPrefix(all, maxBytes);
    OpKeepsSound(l, Set(key, data), maxBytes);
    LookupUnique(all[n..], key, |all[n..]| - 1);
    forall e | e in l.entries && e.key != key ensures e in all {
      WithoutKeepsOthers(l.entries, key, e);
    }
    OrderedByUse(l, Without(l.entries, key));
  }

  ghost predicate UsedBefore(l: Ledger, e: Entry, f: Entry) {
    e.key in l.touched && f.key in l.touched && l.touched[e.key] < l.touched[f.key]
  }

  lemma OrderedByUse(l: Ledger, es: seq<Entry>)
    requires Sound(l.(entries := es))
    ensures forall a, b :: 0 <= a < b < |es| ==> UsedBefore(l, es[a], es[b])
  {
    forall a, b | 0 <= a < b < |es| ensures UsedBefore(l, es[a], es[b]) {
      assert Fresh(l.(entries := es), es[a]) && Fresh(l.(entries := es), es[b]);
    }
  }

  // ----------------------------------------------------------------- the class

  class MemoryCache {
    const maxBytes: nat
    var entries: seq<Entry>
    var totalBytes: int
    ghost var ledger: Ledger

    ghost predicate Valid()
      reads this
    {
      Sound(ledger) && ledger.entries == entries && totalBytes == Total(entries) && Bounded(entries, maxBytes)
    }

    constructor (maxBytes: nat)
      requires maxBytes > 0
      ensures Valid() && this.maxBytes == maxBytes && ledger == Ledger([], map[], map[], 0)
    {
      this.maxBytes := maxBytes;
      entries, totalBytes := [], 0;
      ledger := Ledger([], map[], map[], 0);
    }

    method Get(key: string) returns (r: Option<Bytes>)
      requires Valid()
      modifies this
      ensures Valid() && ledger == Apply(old(ledger), Op.Get(key), maxBytes)
      ensures r == Lookup(old(entries), key)
      ensures r.Some? <==> exists i :: 0 <= i < |old(entries)| && old(entries)[i].key == key
      ensures r.Some? ==> entries != [] && entries[|entries| - 1] == Entry(key, r.value)
      ensures forall e :: e in entries <==> e in old(entries)
      ensures r.Some? ==> key in old(ledger).latest && r.value == old(ledger).latest[key]
    {
      hide Sound, Lookup, Without, Bounded;
      OpKeepsSound(ledger, Op.Get(key), maxBytes);
      OpKeepsBound(ledger, Op.Get(key), maxBytes);
      ghost var before := ledger;
      DistinctOf(before);
      TouchReorders(entries, key);
      r := Lookup(entries, key);
      if r.Some? {
        HitIsLatest(before, key);
        WithoutSplits(entries, key);
        TotalAppend(Without(entries, key), [Entry(key, r.value)]);
        entries := Without(entries, key) + [Entry(key, r.value)];
        TotalOne(Entry(key, r.value));
      }
      ledger := Apply(before, Op.Get(key), maxBytes);
    }

    /** Remove an entry and its cost. */
    method Delete(key: string)
      requires Valid()
      modifies this
      ensures Valid() && ledger == Apply(old(ledger), Op.Delete(key), maxBytes)
      ensures forall e :: e in entries <==> e in old(entries) && e.key != key
    {
      hide Sound, Lookup, Without, Bounded;
      OpKeepsSound(ledger, Op.Delete(key), maxBytes);
      OpKeepsBound(ledger, Op.Delete(key), maxBytes);
      DistinctOf(ledger);
      WithoutSplits(entries, key);
      WithoutExactly(entries, key);
      var existing := Lookup(entries, key);
      if existing.Some? {
        totalBytes := totalBytes - CostOf(Entry(key, existing.value));
        entries := Without(entries, key);
      }
      ledger := Apply(ledger, Op.Delete(key), maxBytes);
    }

    method Clear()
      requires Valid()
      modifies this
      ensures Valid() && ledger == Apply(old(ledger), Op.Clear, maxBytes)
      ensures entries == [] && totalBytes == 0
    {
      OpKeepsSound(ledger, Op.Clear, maxBytes);
      OpKeepsBound(ledger, Op.Clear, maxBytes);
      entries, totalBytes := [], 0;
      ledger := Apply(ledger, Op.Clear, maxBytes);
    }

    /** Store a value, then evict; `evicted` are the keys the eviction callback sees, in order. */
    method Set(key: string, data: Bytes) returns (evicted: seq<Entry>)
      requires Valid()
      modifies this
      ensures Valid() && ledger == Apply(old(ledger), Op.Set(key, data), maxBytes)
      ensures evicted + entries == Candidates(old(entries), key, data)
      ensures totalBytes == Size(entries) && (Size(entries) <= maxBytes || |entries| == 1)
    {
      hide Sound, Bounded, Lookup, Without, Trim, Total, Size, CostOf, Holds, IsRemoval, DistinctKeys;
      SizesOf(ledger, key, data, maxBytes);
      OpKeepsSound(ledger, Op.Set(key, data), maxBytes);
      OpKeepsBound(ledger, Op.Set(key, data), maxBytes);
      DistinctOf(ledger);
      WithoutSplits(entries, key);
      var existing := Lookup(entries, key);
      if existing.Some? {
        totalBytes := totalBytes - CostOf(Entry(key, existing.value));
        entries := Without(entries, key);
      }
      TotalAppend(entries, [Entry(key, data)]);
      TotalOne(Entry(key, data));
      entries := entries + [Entry(key, data)];
      totalBytes := totalBytes + CostOf(Entry(key, data));
      evicted := EvictOldest();
      ledger := Apply(ledger, Op.Set(key, data), maxBytes);
    }

    method EvictOldest() returns (evicted: seq<Entry>)
      requires totalBytes == Total(entries)
      modifies this`entries, this`totalBytes
      ensures totalBytes == Total(entries) && entries == Trim(old(entries), maxBytes)
      ensures evicted + entries == old(entries)
    {
      evicted := [];
      while totalBytes > maxBytes && |entries| > 1
        invariant totalBytes == Total(entries) && Trim(entries, maxBytes) == Trim(old(entries), maxBytes)
        invariant evicted + entries == old(entries)
        decreases |entries|
      {
        var oldest := entries[0];
        totalBytes := totalBytes - CostOf(oldest);
        entries := entries[1..];
        evicted := evicted + [oldest];
      }
    }
  }

  lemma SizesOf(l: Ledger, key: string, data: Bytes, maxBytes: nat)
    requires Sound(l)
    ensures var es := Apply(l, Op.Set(key, data), maxBytes).entries;
            Total(es) == Size(es) && (Size(es) <= maxBytes || |es| == 1)
  {
    hide Sound, Lookup, Without, Trim, Total, Size;
    TotalIsSize(Apply(l, Op.Set(key, data), maxBytes).entries);
    var n := TrimShortestPrefix(Candidates(l.entries, key, data), maxBytes);
  }

  lemma DistinctOf(l: Ledger)
    requires Sound(l)
    ensures DistinctKeys(l.entries)
  {
  }

  lemma TotalOne(e: Entry)
    ensures Total([e]) == CostOf(e)
  {
  }

  // ------------------------------------------------------- the expiring cache

  /** What the caller last asked to keep under a key, and until when. */
  datatype Lease = Lease(data: Bytes, deadline: Option<int>)

  function DeadlineOf(expiries: map<string, int>, key: string): Option<int> {
    if key in expiries then Some(expiries[key]) else None
  }

  /** Every value kept is the one last set, under its own deadline; no expiry outlives its value. */
  ghost predicate LeasesOk(entries: seq<Entry>, expiries: map<string, int>, leases: map<string, Lease>) {
    && (forall key :: key in expiries ==> Holds(entries, key))
    && (forall i :: 0 <= i < |entries| ==>
          entries[i].key in leases && leases[entries[i].key] == Lease(entries[i].data, DeadlineOf(expiries, entries[i].key)))
  }

  function Keys(es: seq<Entry>): set<string> {
    set e | e in es :: e.key
  }

  lemma LeaseOf(entries: seq<Entry>, expiries: map<string, int>, leases: map<string, Lease>, key: string)
    requires LeasesOk(entries, expiries, leases) && Lookup(entries, key).Some?
    ensures key in leases && leases[key] == Lease(Lookup(entries, key).value, DeadlineOf(expiries, key))
  {
    hide Lookup;
    var e := Entry(key, Lookup(entries, key).value);
    var i :| 0 <= i < |entries| && entries[i] == e;
  }

  ghost predicate SameEntries(a: seq<Entry>, b: seq<Entry>) {
    forall e :: e in a <==> e in b
  }

  lemma ReorderKeepsLeases(a: seq<Entry>, b: seq<Entry>, expiries: map<string, int>, leases: map<string, Lease>)
    requires LeasesOk(a, expiries, leases) && SameEntries(a, b)
    ensures LeasesOk(b, expiries, leases)
  {
    forall key | key in expiries ensures Holds(b, key) {
      var i :| 0 <= i < |a| && a[i].key == key;
      assert a[i] in b;
      var k :| 0 <= k < |b| && b[k] == a[i];
    }
    forall i | 0 <= i < |b|
      ensures b[i].key in leases && leases[b[i].key] == Lease(b[i].data, DeadlineOf(expiries, b[i].key))
    {
      assert b[i] in a;
    }
  }

  lemma TouchReorders(es: seq<Entry>, key: string)
    requires DistinctKeys(es)
    ensures SameEntries(es, Touched(es, key))
  {
    hide Lookup, Without;
    if Lookup(es, key).Some? {
      WithoutSplits(es, key);
      var i :| IsRemoval(es, key, i);
      var r := Touched(es, key);
      assert r == es[..i] + es[i + 1..] + [es[i]];
      forall e | e in es ensures e in r {
        var k :| 0 <= k < |es| && es[k] == e;
        assert r[if k < i then k else if k == i then |es| - 1 else k - 1] == e;
      }
    }
  }

  lemma SkipKeepsLeases(es: seq<Entry>, i: nat, rest: seq<Entry>, expiries: map<string, int>, leases: map<string, Lease>)
    requires DistinctKeys(es) && LeasesOk(es, expiries, leases) && i < |es| && rest == es[..i] + es[i + 1..]
    ensures LeasesOk(rest, expiries - {es[i].key}, leases)
  {
    assert forall k :: 0 <= k < |rest| ==> rest[k] == es[if k < i then k else k + 1];
    forall other | other in expiries && other != es[i].key ensures Holds(rest, other) {
      var k :| 0 <= k < |es| && es[k].key == other;
      assert rest[if k < i then k else k - 1].key == other;
    }
  }

  lemma RemovalKeepsLeases(es: seq<Entry>, key: string, expiries: map<string, int>, leases: map<string, Lease>)
    requires DistinctKeys(es) && LeasesOk(es, expiries, leases)
    ensures LeasesOk(Without(es, key), expiries - {key}, leases)
  {
    hide Lookup, Without, LeasesOk;
    WithoutSplits(es, key);
    if Lookup(es, key).Some? {
      var i :| IsRemoval(es, key, i);
      SkipKeepsLeases(es, i, Without(es, key), expiries, leases);
    } else {
      NoLeaseWithoutEntry(es, key, expiries, leases);
      assert expiries - {key} == expiries;
    }
  }

  lemma NoLeaseWithoutEntry(es: seq<Entry>, key: string, expiries: map<string, int>, leases: map<string, Lease>)
    requires LeasesOk(es, expiries, leases) && !Holds(es, key)
    ensures key !in expiries
  {
  }

  lemma KeysApart(gone: seq<Entry>, kept: seq<Entry>, i: nat)
    requires DistinctKeys(gone + kept) && i < |kept|
    ensures kept[i].key !in Keys(gone)
  {
    var all := gone + kept;
    forall e | e in gone ensures e.key != kept[i].key {
      var k :| 0 <= k < |gone| && gone[k] == e;
      assert all[k] == e && all[|gone| + i] == kept[i];
    }
  }

  lemma HeldByRest(gone: seq<Entry>, kept: seq<Entry>, key: string)
    requires Holds(gone + kept, key)
    ensures key in Keys(gone) || Holds(kept, key)
  {
    var all := gone + kept;
    var i :| 0 <= i < |all| && all[i].key == key;
    assert i < |gone| ==> all[i] in gone;
    assert i >= |gone| ==> all[i] == kept[i - |gone|];
  }

  /** Evicting a prefix, with its expiries, keeps the leases of the rest. */
  lemma EvictionKeepsLeases(gone: seq<Entry>, kept: seq<Entry>, expiries: map<string, int>, leases: map<string, Lease>)
    requires DistinctKeys(gone + kept) && LeasesOk(gone + kept, expiries, leases)
    ensures LeasesOk(kept, expiries - Keys(gone), leases)
  {
    hide DistinctKeys, Keys, Holds;
    var all := gone + kept;
    forall key | key in expiries && key !in Keys(gone) ensures Holds(kept, key) {
      HeldByRest(gone, kept, key);
    }
    forall i | 0 <= i < |kept| ensures kept[i].key !in Keys(gone) && all[|gone| + i] == kept[i] {
      KeysApart(gone, kept, i);
    }
  }

  lemma StoreKeepsLeases(es: seq<Entry>, key: string, data: Bytes, expiries: map<string, int>, leases: map<string, Lease>, deadline: Option<int>)
    requires LeasesOk(es, expiries, leases) && !Holds(es, key) && key !in expiries
    ensures var after := if deadline.Some? then expiries[key := deadline.value] else expiries;
            LeasesOk(es + [Entry(key, data)], after, leases[key := Lease(data, deadline)])
  {
    var all := es + [Entry(key, data)];
    assert all[|es|].key == key;
    forall other | other in expiries ensures Holds(all, other) {
      var i :| 0 <= i < |es| && es[i].key == other;
      assert all[i].key == other;
    }
    assert forall i :: 0 <= i < |es| ==> es[i].key != key && all[i] == es[i];
  }

  function WithDeadline(expiries: map<string, int>, key: string, deadline: Option<int>): map<string, int> {
    if deadline.Some? then expiries[key := deadline.value] else expiries - {key}
  }

  lemma DeadlineCommutes(expiries: map<string, int>, key: string, deadline: Option<int>, gone: set<string>)
    requires key !in gone
    ensures WithDeadline(expiries - {key}, key, deadline) - gone == WithDeadline(expiries - gone, key, deadline)
  {
  }

  lemma CandidatesHaveLeases(l: Ledger, key: string, data: Bytes, expiries: map<string, int>, leases: map<string, Lease>, deadline: Option<int>)
    requires Sound(l) && LeasesOk(l.entries, expiries, leases)
    ensures DistinctKeys(Candidates(l.entries, key, data))
    ensures LeasesOk(Candidates(l.entries, key, data), WithDeadline(expiries - {key}, key, deadline), leases[key := Lease(data, deadline)])
  {
    hide Sound, Lookup, Without, LeasesOk, DistinctKeys, Holds;
    var es := Without(l.entries, key);
    DistinctOf(l);
    RemovalKeepsSound(l, key);
    RemovalKeepsLeases(l.entries, key, expiries, leases);
    StoreKeepsLeases(es, key, data, expiries - {key}, leases, deadline);
    assert (expiries - {key}) - {key} == expiries - {key};
    AppendKeepsSound(l.(entries := es), key, data);
    DistinctOf(Ledger(es + [Entry(key, data)], l.latest[key := data], l.touched[key := l.clock], l.clock + 1));
  }

  lemma KeptEndsWithNew(l: Ledger, key: string, data: Bytes, maxBytes: nat, evicted: seq<Entry>, kept: seq<Entry>)
    requires Sound(l)
    requires evicted + kept == Candidates(l.entries, key, data) && kept == Apply(l, Set(key, data), maxBytes).entries
    ensures kept != [] && kept[|kept| - 1].key == key && Lookup(kept, key) == Some(data)
  {
    hide Sound, Lookup, Without, Total, Trim;
    var n := SetEvictsShortestPrefix(l, key, data, maxBytes);
    var all := evicted + kept;
    assert kept[|kept| - 1] == all[|all| - 1];
  }

  /** A set replaces the lease of its key and drops the expiries of what it evicts. */
  lemma SetKeepsLeases(l: Ledger, key: string, data: Bytes, maxBytes: nat, evicted: seq<Entry>, kept: seq<Entry>,
    expiries: map<string, int>, leases: map<string, Lease>, deadline: Option<int>)
    requires Sound(l) && LeasesOk(l.entries, expiries, leases)
    requires evicted + kept == Candidates(l.entries, key, data) && kept == Apply(l, Set(key, data), maxBytes).entries
    ensures LeasesOk(kept, WithDeadline(expiries - Keys(evicted), key, deadline), leases[key := Lease(data, deadline)])
    ensures Lookup(kept, key) == Some(data)
  {
    hide Sound, Lookup, LeasesOk, DistinctKeys, Keys, Candidates, WithDeadline, Apply;
    CandidatesHaveLeases(l, key, data, expiries, leases, deadline);
    KeptEndsWithNew(l, key, data, maxBytes, evicted, kept);
    EvictionKeepsLeases(evicted, kept, WithDeadline(expiries - {key}, key, deadline), leases[key := Lease(data, deadline)]);
    KeysApart(evicted, kept, |kept| - 1);
    DeadlineCommutes(expiries, key, deadline, Keys(evicted));
  }

  /** Values with a time to live over the byte-bounded cache; `now` is the clock reading of a call. */
  class InMemoryCache {
    const lru: MemoryCache
    var expiries: map<string, int>
    ghost var leases: map<string, Lease>

    ghost predicate Valid()
      reads this, lru
    {
      lru.Valid() && LeasesOk(lru.entries, expiries, leases)
    }

    constructor (maxBytes: nat)
      requires maxBytes > 0
      ensures Valid() && fresh(lru) && leases == map[]
    {
      lru := new MemoryCache(maxBytes);
      expiries, leases := map[], map[];
    }

    /** A hit is the value of the current lease, which has not run out; an expired one is dropped. */
    method Get(key: string, now: int) returns (r: Option<Bytes>)
      requires Valid()
      modifies this, lru
      ensures Valid() && leases == old(leases)
      ensures r.Some? ==> key in leases && r.value == leases[key].data
      ensures r.Some? ==> leases[key].deadline.None? || now < leases[key].deadline.value
      ensures r.None? ==> Lookup(old(lru.entries), key).None? || (key in old(expiries) && now >= old(expiries)[key])
      ensures r.None? ==> !Holds(lru.entries, key) && key !in expiries
    {
      hide Sound, Lookup, Without, LeasesOk, DistinctKeys, Total;
      DistinctOf(lru.ledger);
      if key in expiries && now >= expiries[key] {
        RemovalKeepsLeases(lru.entries, key, expiries, leases);
        RemovalKeepsSound(lru.ledger, key);
        lru.Delete(key);
        expiries := expiries - {key};
        return None;
      }
      if Lookup(lru.entries, key).Some? {
        LeaseOf(lru.entries, expiries, leases, key);
      } else {
        NoLeaseWithoutEntry(lru.entries, key, expiries, leases);
        assert expiries - {key} == expiries;
      }
      TouchReorders(lru.entries, key);
      ReorderKeepsLeases(lru.entries, Touched(lru.entries, key), expiries, leases);
      r := lru.Get(key);
      if r.None? {
        expiries := expiries - {key};
      }
    }

    /** Keep a value, for `ttl` from `now` if given; evicted keys lose their expiries too. */
    method Set(key: string, value: Bytes, ttl: Option<int>, now: int)
      requires Valid()
      modifies this, lru
      ensures Valid()
      ensures leases == old(leases)[key := Lease(value, if ttl.Some? then Some(now + ttl.value) else None)]
      ensures Lookup(lru.entries, key) == Some(value)
    {
      hide Sound, Lookup, Without, LeasesOk, DistinctKeys, Total, Keys;
      ghost var deadline := if ttl.Some? then Some(now + ttl.value) else None;
      ghost var before, oldExpiries := lru.ledger, expiries;
      var evicted := lru.Set(key, value);
      SetKeepsLeases(before, key, value, lru.maxBytes, evicted, lru.entries, oldExpiries, leases, deadline);
      expiries := expiries - Keys(evicted);
      if ttl.Some? {
        expiries := expiries[key := now + ttl.value];
      } else {
        expiries := expiries - {key};
      }
      leases := leases[key := Lease(value, deadline)];
    }
  }
}
