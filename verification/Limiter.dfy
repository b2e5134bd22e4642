/** The byte limiter: a FIFO semaphore over a byte budget, shared by concurrent chunk reads. */
module Limiter {
  import opened Vectors

  datatype Waiter = Waiter(id: nat, cost: nat)

  datatype Budget = Budget(capacity: nat, available: int, waiters: seq<Waiter>)

  /** What a request really reserves: nothing for a non-positive cost, at most the whole budget. */
  function Clamp(cost: int, capacity: nat): nat {
    if cost <= 0 then 0 else if cost <= capacity then cost else capacity
  }

  function Total(ws: seq<Waiter>): nat {
    if ws == [] then 0 else ws[0].cost + Total(ws[1..])
  }

  function Ids(ws: seq<Waiter>): (ids: seq<nat>)
    ensures |ids| == |ws|
    ensures forall k :: 0 <= k < |ws| ==> ids[k] == ws[k].id
  {
    seq(|ws|, k requires 0 <= k < |ws| => ws[k].id)
  }

  /** Wake waiters in order while the head fits; the second part are those woken. */
  function Pump(b: Budget): (Budget, seq<Waiter>)
    decreases |b.waiters|
  {
    if |b.waiters| > 0 && b.available >= b.waiters[0].cost then
      var rest := Pump(b.(available := b.available - b.waiters[0].cost, waiters := b.waiters[1..]));
      (rest.0, [b.waiters[0]] + rest.1)
    else (b, [])
  }

  function Acquired(b: Budget, id: nat, cost: int): (Budget, bool) {
    var c := Clamp(cost, b.capacity);
    if c == 0 then (b, true)
    else if b.waiters == [] && b.available >= c then (b.(available := b.available - c), true)
    else (b.(waiters := b.waiters + [Waiter(id, c)]), false)
  }

  function Released(b: Budget, cost: int): (Budget, seq<Waiter>) {
    var a := b.available + Clamp(cost, b.capacity);
    Pump(b.(available := if a > b.capacity then b.capacity else a))
  }

  ghost predicate CostsWithin(ws: seq<Waiter>, capacity: nat) {
    forall k :: 0 <= k < |ws| ==> 1 <= ws[k].cost <= capacity
  }

  /** Nobody is kept waiting who would fit, and no request exceeds the budget. */
  ghost predicate Settled(b: Budget) {
    && b.capacity >= 1 && 0 <= b.available <= b.capacity
    && CostsWithin(b.waiters, b.capacity)
    && (b.waiters != [] ==> b.available < b.waiters[0].cost)
  }

  lemma {:induction false} TotalAppend(a: seq<Waiter>, b: seq<Waiter>)
    ensures Total(a + b) == Total(a) + Total(b)
  {
    if a == [] {
      assert a + b == b;
    } else {
      TotalAppend(a[1..], b);
      assert (a + b)[1..] == a[1..] + b;
    }
  }

  /** A pump wakes the longest prefix of the queue that fits, and charges exactly its cost. */
  lemma {:induction false} PumpWakesLongestPrefix(b: Budget)
    requires b.available >= 0
    ensures Pump(b).1 + Pump(b).0.waiters == b.waiters
    ensures Pump(b).0.capacity == b.capacity && 0 <= Pump(b).0.available
    ensures Pump(b).0.available + Total(Pump(b).1) == b.available
    ensures Pump(b).0.waiters != [] ==> Pump(b).0.available < Pump(b).0.waiters[0].cost
    decreases |b.waiters|
  {
    if |b.waiters| > 0 && b.available >= b.waiters[0].cost {
      var next := b.(available := b.available - b.waiters[0].cost, waiters := b.waiters[1..]);
      PumpWakesLongestPrefix(next);
      assert b.waiters == [b.waiters[0]] + next.waiters;
      assert Pump(b).1[1..] == Pump(next).1;
    }
  }

  // --------------------------------------------------- runs of matched calls

  /** Who asked for how many bytes. */
  datatype Claim = Claim(id: nat, asked: int)

  /**
   The limiter with its book-keeping: the claims that hold bytes now, those that wait for them, and
   in which order the requests that reserve anything arrived and were granted.
   */
  datatype Ledger = Ledger(budget: Budget, held: seq<Claim>, waiting: seq<Claim>, arrived: seq<nat>, granted: seq<nat>)

  /** What a claim is charged: the bytes asked for, at most the whole budget. */
  ghost function Charge(asked: int, capacity: nat): nat {
    if asked <= 0 then 0 else if asked <= capacity then asked else capacity
  }

  ghost function Charges(claims: seq<Claim>, capacity: nat): (r: seq<nat>)
    ensures |r| == |claims|
    ensures forall k :: 0 <= k < |claims| ==> r[k] == Charge(claims[k].asked, capacity)
  {
    seq(|claims|, k requires 0 <= k < |claims| => Charge(claims[k].asked, capacity))
  }

  ghost predicate AllAsk(claims: seq<Claim>) {
    forall k :: 0 <= k < |claims| ==> claims[k].asked > 0
  }

  /** The queue is the waiting claims, in order, each at its charge. */
  ghost predicate QueueIs(ws: seq<Waiter>, claims: seq<Claim>, capacity: nat) {
    && |ws| == |claims|
    && forall k :: 0 <= k < |ws| ==> ws[k] == Waiter(claims[k].id, Charge(claims[k].asked, capacity))
  }

  /**
   The charges of the holders and the bytes available add up to the capacity, the first that waits
   does not fit, and requests are granted in arrival order.
   */
  ghost predicate Balanced(l: Ledger) {
    && l.budget.capacity >= 1 && l.budget.available >= 0
    && AllAsk(l.held) && AllAsk(l.waiting) && QueueIs(l.budget.waiters, l.waiting, l.budget.capacity)
    && l.budget.available + Sum(Charges(l.held, l.budget.capacity)) == l.budget.capacity
    && (l.waiting != [] ==> l.budget.available < Charge(l.waiting[0].asked, l.budget.capacity))
    && l.granted + Ids(l.budget.waiters) == l.arrived
  }

  function NewLedger(capacity: int): Ledger {
    var c := if capacity > 1 then capacity else 1;
    Ledger(Budget(c, c, []), [], [], [], [])
  }

  datatype Call = Request(id: nat, cost: int) | Return(holder: nat, cost: int)

  /** Each return gives back what one holder was charged. */
  ghost predicate Matched(l: Ledger, call: Call) {
    call.Return? ==>
      && call.holder < |l.held|
      && Charge(call.cost, l.budget.capacity) == Charge(l.held[call.holder].asked, l.budget.capacity)
  }

  lemma PumpTakesPrefix(b: Budget)
    ensures |Pump(b).1| <= |b.waiters|
    decreases |b.waiters|
  {
    if |b.waiters| > 0 && b.available >= b.waiters[0].cost {
      PumpTakesPrefix(b.(available := b.available - b.waiters[0].cost, waiters := b.waiters[1..]));
    }
  }

  function Apply(l: Ledger, call: Call): Ledger
    requires |l.waiting| == |l.budget.waiters| && (call.Return? ==> call.holder < |l.held|)
  {
    match call
    case Request(id, cost) =>
      var r := Acquired(l.budget, id, cost);
      if cost <= 0 then l
      else if r.1 then Ledger(r.0, l.held + [Claim(id, cost)], l.waiting, l.arrived + [id], l.granted + [id])
      else Ledger(r.0, l.held, l.waiting + [Claim(id, cost)], l.arrived + [id], l.granted)
    case Return(k, cost) =>
      var r := Released(l.budget, cost);
      ReleaseTakesPrefix(l.budget, cost);
      Ledger(r.0, l.held[..k] + l.held[k + 1..] + l.waiting[..|r.1|], l.waiting[|r.1|..], l.arrived, l.granted + Ids(r.1))
  }

  lemma ReleaseTakesPrefix(b: Budget, cost: int)
    ensures |Released(b, cost).1| <= |b.waiters|
  {
    var a := b.available + Clamp(cost, b.capacity);
    PumpTakesPrefix(b.(available := if a > b.capacity then b.capacity else a));
  }

  lemma IdsAppend(a: seq<Waiter>, b: seq<Waiter>)
    ensures Ids(a + b) == Ids(a) + Ids(b)
  {
  }

  lemma ChargesAppend(a: seq<Claim>, b: seq<Claim>, capacity: nat)
    ensures Sum(Charges(a + b, capacity)) == Sum(Charges(a, capacity)) + Sum(Charges(b, capacity))
  {
    hide Charge;
    assert Charges(a + b, capacity) == Charges(a, capacity) + Charges(b, capacity);
    SumConcat(Charges(a, capacity), Charges(b, capacity));
  }

  lemma OneCharge(c: Claim, capacity: nat)
    ensures Sum(Charges([c], capacity)) == Charge(c.asked, capacity)
  {
    assert Charges([c], capacity) == [Charge(c.asked, capacity)];
    assert Sum([Charge(c.asked, capacity)]) == Charge(c.asked, capacity) + Sum([]);
  }

  /** A waiter's cost is its claim's charge. */
  lemma {:induction false} TotalIsCharges(ws: seq<Waiter>, claims: seq<Claim>, capacity: nat)
    requires QueueIs(ws, claims, capacity)
    ensures Total(ws) == Sum(Charges(claims, capacity))
  {
    hide Charge;
    if ws != [] {
      assert QueueIs(ws[1..], claims[1..], capacity);
      TotalIsCharges(ws[1..], claims[1..], capacity);
      assert Charges(claims, capacity)[1..] == Charges(claims[1..], capacity);
    }
  }

  /** A request is charged what it asked for, cut to the budget. */
  lemma ClampIsCharge(cost: int, capacity: nat)
    ensures Clamp(cost, capacity) == Charge(cost, capacity)
  {
  }

  lemma BudgetOf(l: Ledger)
    requires Balanced(l)
    ensures Settled(l.budget) && l.budget.capacity >= 1
  {
    hide Sum, Charges;
  }

  lemma QueueGrows(ws: seq<Waiter>, claims: seq<Claim>, c: Claim, capacity: nat)
    requires QueueIs(ws, claims, capacity) && AllAsk(claims) && c.asked > 0
    ensures QueueIs(ws + [Waiter(c.id, Charge(c.asked, capacity))], claims + [c], capacity) && AllAsk(claims + [c])
    ensures (claims + [c])[0] == if claims == [] then c else claims[0]
  {
    hide Charge;
  }

  lemma RequestKeepsBalance(l: Ledger, id: nat, cost: int)
    requires Balanced(l)
    ensures Balanced(Apply(l, Request(id, cost)))
  {
    hide Sum, Charges, QueueIs, Clamp;
    var c := Claim(id, cost);
    ClampIsCharge(cost, l.budget.capacity);
    QueueLength(l.budget.waiters, l.waiting, l.budget.capacity);
    if cost > 0 {
      ChargesAppend(l.held, [c], l.budget.capacity);
      OneCharge(c, l.budget.capacity);
      QueueGrows(l.budget.waiters, l.waiting, c, l.budget.capacity);
      IdsAppend(l.budget.waiters, [Waiter(id, Charge(cost, l.budget.capacity))]);
      OneId(Waiter(id, Charge(cost, l.budget.capacity)));
      assert Ids([]) == [];
      assert l.granted + (Ids(l.budget.waiters) + [id]) == l.granted + Ids(l.budget.waiters) + [id];
    }
  }

  lemma OneId(w: Waiter)
    ensures Ids([w]) == [w.id]
  {
  }

  lemma QueueLength(ws: seq<Waiter>, claims: seq<Claim>, capacity: nat)
    requires QueueIs(ws, claims, capacity)
    ensures |ws| == |claims|
  {
  }

  lemma ChargesWithout(claims: seq<Claim>, k: nat, capacity: nat)
    requires k < |claims|
    ensures Sum(Charges(claims[..k] + claims[k + 1..], capacity)) + Charge(claims[k].asked, capacity) == Sum(Charges(claims, capacity))
  {
    hide Charge, Sum, Charges;
    ChargesAppend(claims[..k], claims[k + 1..], capacity);
    ChargesAppend(claims[..k], [claims[k]], capacity);
    ChargesAppend(claims[..k + 1], claims[k + 1..], capacity);
    OneCharge(claims[k], capacity);
    assert claims[..k] + [claims[k]] == claims[..k + 1];
    assert claims == claims[..k + 1] + claims[k + 1..];
  }

  lemma CostsSplit(ws: seq<Waiter>, a: seq<Waiter>, b: seq<Waiter>, capacity: nat)
    requires ws == a + b
    ensures CostsWithin(ws, capacity) <==> CostsWithin(a, capacity) && CostsWithin(b, capacity)
  {
    assert forall k :: 0 <= k < |a| ==> ws[k] == a[k];
    assert forall k :: 0 <= k < |b| ==> ws[|a| + k] == b[k];
  }

  /** What a release wakes, as claims: the first ones of the queue. */
  lemma QueueSplits(ws: seq<Waiter>, woken: seq<Waiter>, rest: seq<Waiter>, claims: seq<Claim>, capacity: nat)
    requires QueueIs(ws, claims, capacity) && ws == woken + rest && AllAsk(claims)
    ensures QueueIs(woken, claims[..|woken|], capacity) && QueueIs(rest, claims[|woken|..], capacity)
    ensures AllAsk(claims[..|woken|]) && AllAsk(claims[|woken|..])
  {
    hide Charge;
    assert forall k :: 0 <= k < |woken| ==> woken[k] == ws[k];
    assert forall k :: 0 <= k < |rest| ==> rest[k] == ws[|woken| + k];
  }

  lemma OthersAsk(held: seq<Claim>, k: nat, more: seq<Claim>)
    requires AllAsk(held) && AllAsk(more) && k < |held|
    ensures AllAsk(held[..k] + held[k + 1..] + more)
  {
  }

  /** What a matched return releases before the pump. */
  lemma ReleasedRaises(l: Ledger, k: nat, cost: int)
    requires Balanced(l) && Matched(l, Return(k, cost))
    ensures Released(l.budget, cost)
         == Pump(l.budget.(available := l.budget.available + Charge(l.held[k].asked, l.budget.capacity)))
  {
    hide Sum, Charges, QueueIs, Pump, Clamp;
    ClampIsCharge(cost, l.budget.capacity);
    ChargesWithout(l.held, k, l.budget.capacity);
  }

  lemma ReturnKeepsBalance(l: Ledger, k: nat, cost: int)
    requires Balanced(l) && Matched(l, Return(k, cost))
    ensures |l.waiting| == |l.budget.waiters| && Balanced(Apply(l, Return(k, cost)))
  {
    hide Total, Sum, Charges, Charge, QueueIs, AllAsk, Pump, Ids, Clamp;
    var ws, cap, rest := l.budget.waiters, l.budget.capacity, l.held[..k] + l.held[k + 1..];
    QueueLength(ws, l.waiting, cap);
    ReleasedRaises(l, k, cost);
    var raised := l.budget.(available := l.budget.available + Charge(l.held[k].asked, cap));
    PumpWakesLongestPrefix(raised);
    var r := Pump(raised);
    QueueSplits(ws, r.1, r.0.waiters, l.waiting, cap);
    var woken := l.waiting[..|r.1|];
    TotalIsCharges(r.1, woken, cap);
    ChargesWithout(l.held, k, cap);
    ChargesAppend(rest, woken, cap);
    OthersAsk(l.held, k, woken);
    HeadCharge(r.0.waiters, l.waiting[|r.1|..], cap);
    IdsAppend(r.1, r.0.waiters);
    assert l.granted + (Ids(r.1) + Ids(r.0.waiters)) == l.granted + Ids(r.1) + Ids(r.0.waiters);
  }

  lemma HeadCharge(ws: seq<Waiter>, claims: seq<Claim>, capacity: nat)
    requires QueueIs(ws, claims, capacity)
    ensures ws == [] <==> claims == []
    ensures ws != [] ==> ws[0].cost == Charge(claims[0].asked, capacity)
  {
    hide Charge;
  }

  /** Any sequence of matched calls. */
  ghost predicate MatchedRun(l: Ledger, calls: seq<Call>)
    requires Balanced(l)
    decreases |calls|
  {
    calls == [] || (Matched(l, calls[0]) && (CallKeepsBalance(l, calls[0]); MatchedRun(Apply(l, calls[0]), calls[1..])))
  }

  lemma CallKeepsBalance(l: Ledger, call: Call)
    requires Balanced(l) && Matched(l, call)
    ensures |l.waiting| == |l.budget.waiters| && (call.Return? ==> call.holder < |l.held|) && Balanced(Apply(l, call))
  {
    hide Balanced, Apply;
    QueueOfBalanced(l);
    match call
    case Request(id, cost) => RequestKeepsBalance(l, id, cost);
    case Return(k, cost) => ReturnKeepsBalance(l, k, cost);
  }

  lemma QueueOfBalanced(l: Ledger)
    requires Balanced(l)
    ensures |l.waiting| == |l.budget.waiters|
  {
  }

  ghost function AfterRun(l: Ledger, calls: seq<Call>): Ledger
    requires Balanced(l) && MatchedRun(l, calls)
    decreases |calls|
  {
    if calls == [] then l
    else
      CallKeepsBalance(l, calls[0]);
      AfterRun(Apply(l, calls[0]), calls[1..])
  }

  /**
   Over every run of matched calls the bytes available and the bytes asked for by the holders, each
   cut to the budget, add up to the capacity, requests are granted in arrival order, and nobody
   waits who would fit.
   */
  lemma {:induction false} RunKeepsBalance(l: Ledger, calls: seq<Call>)
    requires Balanced(l) && MatchedRun(l, calls)
    ensures Balanced(AfterRun(l, calls)) && AfterRun(l, calls).budget.capacity == l.budget.capacity
    decreases |calls|
  {
    hide Balanced, Apply;
    if calls != [] {
      CallKeepsBalance(l, calls[0]);
      CallKeepsCapacity(l, calls[0]);
      RunKeepsBalance(Apply(l, calls[0]), calls[1..]);
    }
  }

  lemma {:induction false} PumpKeepsCapacity(b: Budget)
    ensures Pump(b).0.capacity == b.capacity
    decreases |b.waiters|
  {
    if |b.waiters| > 0 && b.available >= b.waiters[0].cost {
      PumpKeepsCapacity(b.(available := b.available - b.waiters[0].cost, waiters := b.waiters[1..]));
    }
  }

  lemma CallKeepsCapacity(l: Ledger, call: Call)
    requires |l.waiting| == |l.budget.waiters| && (call.Return? ==> call.holder < |l.held|)
    ensures Apply(l, call).budget.capacity == l.budget.capacity
  {
    hide Pump;
    if call.Return? {
      var a := l.budget.available + Clamp(call.cost, l.budget.capacity);
      PumpKeepsCapacity(l.budget.(available := if a > l.budget.capacity then l.budget.capacity else a));
    }
  }

  lemma FreshIsBalanced(capacity: int)
    ensures Balanced(NewLedger(capacity))
  {
  }

  /** Every state that matched calls can reach from a new limiter is balanced, on the capacity it was given. */
  lemma ReachedIsBalanced(capacity: int, calls: seq<Call>)
    requires Balanced(NewLedger(capacity)) && MatchedRun(NewLedger(capacity), calls)
    ensures Balanced(AfterRun(NewLedger(capacity), calls))
    ensures AfterRun(NewLedger(capacity), calls).budget.capacity == if capacity > 1 then capacity else 1
  {
    hide Balanced, MatchedRun, AfterRun;
    RunKeepsBalance(NewLedger(capacity), calls);
  }

  /** While anyone waits, someone holds bytes: with holders that return, no deadlock. */
  lemma WaitingMeansHeld(l: Ledger)
    requires Balanced(l) && l.waiting != []
    ensures l.held != []
  {
    hide QueueIs;
    assert l.held == [] ==> Charges(l.held, l.budget.capacity) == [];
  }

  /** The return of the last holder grants the head of the queue, however many bytes it asked for. */
  lemma LastReturnGrantsHead(l: Ledger, cost: int)
    requires Balanced(l) && |l.held| == 1 && Matched(l, Return(0, cost)) && l.waiting != []
    ensures |l.waiting| == |l.budget.waiters| && l.waiting[0] in Apply(l, Return(0, cost)).held
    ensures |Apply(l, Return(0, cost)).granted| > |l.granted|
  {
    hide Sum, Charges, Charge, Clamp;
    assert l.held == [l.held[0]];
    OneCharge(l.held[0], l.budget.capacity);
    ReleasedRaises(l, 0, cost);
    ChargeWithin(l.waiting[0].asked, l.budget.capacity);
    var raised := l.budget.(available := l.budget.capacity);
    assert Pump(raised).1 != [];
    ReleaseTakesPrefix(l.budget, cost);
    var t := Apply(l, Return(0, cost));
    assert l.waiting[..|Pump(raised).1|][0] == l.waiting[0];
    assert t.held == l.waiting[..|Pump(raised).1|];
  }

  lemma ChargeWithin(asked: int, capacity: nat)
    ensures Charge(asked, capacity) <= capacity
  {
  }

  // ----------------------------------------------------------------- the class

  class ByteLimiter {
    const capacity: nat
    var available: int
    var waiters: seq<Waiter>
    ghost var ledger: Ledger

    ghost predicate Valid()
      reads this
    {
      Balanced(ledger) && ledger.budget == Budget(capacity, available, waiters)
    }

    constructor (capacity: int)
      ensures Valid() && ledger == NewLedger(capacity)
      ensures this.capacity == (if capacity > 1 then capacity else 1) && available == this.capacity && waiters == []
    {
      this.capacity := if capacity > 1 then capacity else 1;
      available := if capacity > 1 then capacity else 1;
      waiters := [];
      ledger := NewLedger(capacity);
    }

    /** Reserve now, or join the queue; `id` names the caller. */
    method Acquire(id: nat, cost: int) returns (granted: bool)
      requires Valid()
      modifies this
      ensures Valid() && |old(ledger).waiting| == |old(ledger).budget.waiters| && ledger == Apply(old(ledger), Request(id, cost))
      ensures granted <==> cost <= 0 || (old(waiters) == [] && old(available) >= if cost <= capacity then cost else capacity)
      ensures granted && cost <= 0 ==> available == old(available)
      ensures granted && 0 < cost <= capacity ==> available == old(available) - cost
      ensures granted && cost > capacity ==> available == old(available) - capacity
      ensures granted ==> waiters == old(waiters)
      ensures !granted ==> available == old(available)
      ensures !granted ==> waiters == old(waiters) + [Waiter(id, if cost <= capacity then cost else capacity)]
    {
      QueueOfBalanced(ledger);
      RequestKeepsBalance(ledger, id, cost);
      BudgetOf(ledger);
      ledger := Apply(ledger, Request(id, cost));
      var c := Clamp(cost, capacity);
      if c == 0 {
        return true;
      }
      if |waiters| == 0 && available >= c {
        available := available - c;
        return true;
      }
      waiters := waiters + [Waiter(id, c)];
      return false;
    }

    /** Give back what holder `k` was charged; `woken` are the requests this grants, in queue order. */
    method Release(cost: int, ghost k: nat) returns (woken: seq<Waiter>)
      requires Valid() && Matched(ledger, Return(k, cost))
      modifies this
      ensures Valid() && |old(ledger).waiting| == |old(ledger).budget.waiters| && ledger == Apply(old(ledger), Return(k, cost))
      ensures woken + waiters == old(waiters)
      ensures available + Total(woken) == old(available) + (if cost <= 0 then 0 else if cost <= capacity then cost else capacity)
      ensures waiters != [] ==> available < waiters[0].cost
    {
      hide Balanced, Pump, Total, Clamp;
      QueueOfBalanced(ledger);
      ReturnKeepsBalance(ledger, k, cost);
      BalanceBounds(ledger);
      ReleasedRaises(ledger, k, cost);
      ClampIsCharge(cost, capacity);
      ghost var before := Budget(capacity, available, waiters);
      ledger := Apply(ledger, Return(k, cost));
      available := available + Clamp(cost, capacity);
      if available > capacity {
        available := capacity;
      }
      PumpWakesLongestPrefix(before.(available := before.available + Charge(cost, capacity)));
      woken := PumpQueue();
      assert (Budget(capacity, available, waiters), woken) == Released(before, cost);
    }

    method PumpQueue() returns (woken: seq<Waiter>)
      requires available >= 0
      modifies this`available, this`waiters
      ensures (Budget(capacity, available, waiters), woken) == Pump(old(Budget(capacity, available, waiters)))
      ensures woken + waiters == old(waiters)
    {
      hide Pump;
      woken := [];
      ghost var start := Budget(capacity, available, waiters);
      while |waiters| > 0 && available >= waiters[0].cost
        invariant Pump(start).0 == Pump(Budget(capacity, available, waiters)).0
        invariant Pump(start).1 == woken + Pump(Budget(capacity, available, waiters)).1
        invariant woken + waiters == start.waiters
        decreases |waiters|
      {
        PumpWakesHead(Budget(capacity, available, waiters), woken);
        var w := waiters[0];
        waiters := waiters[1..];
        available := available - w.cost;
        woken := woken + [w];
      }
      PumpStops(Budget(capacity, available, waiters));
      assert woken + [] == woken;
    }
  }

  lemma PumpWakesHead(b: Budget, woken: seq<Waiter>)
    requires |b.waiters| > 0 && b.available >= b.waiters[0].cost
    ensures var next := Budget(b.capacity, b.available - b.waiters[0].cost, b.waiters[1..]);
            Pump(b).0 == Pump(next).0 && woken + Pump(b).1 == woken + [b.waiters[0]] + Pump(next).1
    ensures woken + b.waiters == woken + [b.waiters[0]] + b.waiters[1..]
  {
    var next := Budget(b.capacity, b.available - b.waiters[0].cost, b.waiters[1..]);
    assert Pump(b).1 == [b.waiters[0]] + Pump(next).1;
    assert b.waiters == [b.waiters[0]] + b.waiters[1..];
  }

  lemma PumpStops(b: Budget)
    requires !(|b.waiters| > 0 && b.available >= b.waiters[0].cost)
    ensures Pump(b) == (b, [])
  {
  }

  lemma BalanceBounds(l: Ledger)
    requires Balanced(l)
    ensures 0 <= l.budget.available
  {
  }
}
