/**
 The token bucket of the ingestion boundary
 (M1/modules/m1-ingestion/app/api/rate_limiter.py), over real arithmetic, and
 its exact characterisation by windows of the arrival sequence.
 */
module TokenBucket {

  datatype Arrival = Arrival(time: real, cost: real)

  datatype State = State(tokens: real, lastUpdate: real)

  function Min(a: real, b: real): real {
    if a <= b then a else b
  }

  /** One `consume`: replenish for the elapsed time, then admit if the tokens suffice. */
  function Consumed(s: State, a: Arrival, rate: real, capacity: real): (State, bool) {
    Granted(s, a, Earned(a.time - s.lastUpdate, rate), capacity)
  }

  /** The tokens a span of time earns. */
  function Earned(elapsed: real, rate: real): real {
    elapsed * rate
  }

  function Granted(s: State, a: Arrival, gained: real, capacity: real): (State, bool) {
    var available := Min(capacity, s.tokens + gained);
    if available >= a.cost then (State(available - a.cost, a.time), true)
    else (State(available, a.time), false)
  }

  class TokenBucketRateLimiter {
    const rate: real
    const capacity: real
    var tokens: real
    var lastUpdate: real

    constructor (rate: real, capacity: real, now: real)
      ensures this.rate == rate && this.capacity == capacity
      ensures Abstract() == State(capacity, now)
    {
      this.rate, this.capacity := rate, capacity;
      tokens, lastUpdate := capacity, now;
    }

    function Abstract(): State
      reads this
    {
      State(tokens, lastUpdate)
    }

    method Consume(now: real, cost: real) returns (allowed: bool)
      modifies this
      ensures (Abstract(), allowed) == Consumed(old(Abstract()), Arrival(now, cost), rate, capacity)
    {
      var elapsed := now - lastUpdate;
      lastUpdate := now;
      tokens := Min(capacity, tokens + Earned(elapsed, rate));
      if tokens >= cost {
        tokens := tokens - cost;
        return true;
      }
      return false;
    }
  }

  // ---- runs ----

  /** The total number of tokens a rate has produced by a point in time. */
  function Minted(rate: real): real -> real {
    t => Earned(t, rate)
  }

  /** `Consumed` in terms of the tokens produced so far. */
  function Advanced(s: State, a: Arrival, supply: real -> real, capacity: real): (State, bool) {
    Granted(s, a, supply(a.time) - supply(s.lastUpdate), capacity)
  }

  lemma ConsumedIsAdvanced(s: State, a: Arrival, rate: real, capacity: real)
    ensures Consumed(s, a, rate, capacity) == Advanced(s, a, Minted(rate), capacity)
  {
    Distribute(rate, a.time, s.lastUpdate);
  }

  lemma Distribute(rate: real, x: real, y: real)
    ensures Earned(x - y, rate) == Minted(rate)(x) - Minted(rate)(y)
  {
  }

  /** A fresh limiter, started at `start`, together with a whole sequence of requests. */
  datatype Run = Run(supply: real -> real, capacity: real, start: real, arrivals: seq<Arrival>) {

    /** A clock that never runs backwards, and non-negative rate, capacity and costs. */
    ghost predicate Valid() {
      && (forall s, t :: s <= t ==> supply(s) <= supply(t))
      && capacity >= 0.0
      && (forall i :: 0 <= i < |arrivals| ==> start <= arrivals[i].time && arrivals[i].cost >= 0.0)
      && (forall i, j :: 0 <= i <= j < |arrivals| ==> arrivals[i].time <= arrivals[j].time)
    }

    /** The limiter's state just before request `j`. */
    function Before(j: nat): State
      requires j <= |arrivals|
    {
      if j == 0 then State(capacity, start)
      else Advanced(Before(j - 1), arrivals[j - 1], supply, capacity).0
    }

    /** Whether request `j` is admitted. */
    predicate Admitted(j: nat)
      requires j < |arrivals|
    {
      Advanced(Before(j), arrivals[j], supply, capacity).1
    }

    /** The tokens available to request `j`. */
    function Available(j: nat): real
      requires j < |arrivals|
    {
      Min(capacity, Before(j).tokens + (supply(arrivals[j].time) - supply(Before(j).lastUpdate)))
    }

    /** What a policy admits among the requests `i .. j-1`. */
    function SpentBy(policy: nat -> bool, i: nat, j: nat): real
      requires i <= j <= |arrivals|
    {
      if i == j then 0.0
      else SpentBy(policy, i, j - 1) + if policy(j - 1) then arrivals[j - 1].cost else 0.0
    }

    /** The limiter's own policy. */
    function Policy(): nat -> bool {
      (j: nat) => j < |arrivals| && Admitted(j)
    }

    /** What the limiter admits among the requests `i .. j-1`. */
    function Spent(i: nat, j: nat): real
      requires i <= j <= |arrivals|
    {
      SpentBy(Policy(), i, j)
    }

    /** The budget of the window from request `i` to request `j`. */
    function Budget(i: nat, j: nat): real
      requires i <= j < |arrivals|
    {
      capacity + (supply(arrivals[j].time) - supply(arrivals[i].time))
    }

    lemma {:induction false} TokensInRange(j: nat)
      requires Valid() && j <= |arrivals|
      ensures 0.0 <= Before(j).tokens <= capacity
      ensures Before(j).lastUpdate == if j == 0 then start else arrivals[j - 1].time
    {
      if j > 0 {
        TokensInRange(j - 1);
        assert supply(Before(j - 1).lastUpdate) <= supply(arrivals[j - 1].time);
      }
    }

    lemma AvailableNonNegative(j: nat)
      requires Valid() && j < |arrivals|
      ensures 0.0 <= Available(j) <= capacity
    {
      TokensInRange(j);
      assert supply(Before(j).lastUpdate) <= supply(arrivals[j].time);
    }

    lemma {:induction false} AvailableAtMost(i: nat, j: nat)
      requires Valid() && i <= j < |arrivals|
      ensures Available(j) <= Budget(i, j) - Spent(i, j)
      decreases j
    {
      if i < j {
        AvailableAtMost(i, j - 1);
        TokensInRange(j);
      }
    }

    lemma {:induction false} AvailableAttained(j: nat) returns (i: nat)
      requires Valid() && j < |arrivals|
      ensures i <= j && Available(j) == Budget(i, j) - Spent(i, j)
      decreases j
    {
      if j == 0 {
        i := 0;
        assert supply(start) <= supply(arrivals[0].time);
      } else {
        i := AvailableAttained(j - 1);
        TokensInRange(j);
        if Available(j) == capacity {
          i := j;
        }
      }
    }

    /** The bucket is exact: its level is the least slack over all windows ending now. */
    lemma LevelIsLeastSlack(j: nat)
      requires Valid() && j < |arrivals|
      ensures forall i: nat :: i <= j ==> Available(j) <= Budget(i, j) - Spent(i, j)
      ensures exists i: nat :: i <= j && Available(j) == Budget(i, j) - Spent(i, j)
    {
      forall i: nat | i <= j ensures Available(j) <= Budget(i, j) - Spent(i, j) {
        AvailableAtMost(i, j);
      }
      var i := AvailableAttained(j);
    }

    /** A request is admitted exactly when no window ending at it would overflow. */
    lemma AdmittedExactly(j: nat)
      requires Valid() && j < |arrivals|
      ensures Admitted(j) <==> forall i: nat :: i <= j ==> Spent(i, j) + arrivals[j].cost <= Budget(i, j)
    {
      LevelIsLeastSlack(j);
      var i: nat :| i <= j && Available(j) == Budget(i, j) - Spent(i, j);
      if forall k: nat :: k <= j ==> Spent(k, j) + arrivals[j].cost <= Budget(k, j) {
        assert Spent(i, j) + arrivals[j].cost <= Budget(i, j);
      }
    }

    /** No window of requests admits more than its budget. */
    lemma NoWindowOverflows(i: nat, j: nat)
      requires Valid() && i <= j < |arrivals|
      ensures Spent(i, j + 1) <= Budget(i, j)
    {
      AvailableNonNegative(j);
      AvailableAtMost(i, j);
    }

    lemma {:induction false} SpentAgree(d: nat -> bool, i: nat, j: nat)
      requires i <= j <= |arrivals|
      requires forall k: nat :: k < j ==> d(k) == Policy()(k)
      ensures SpentBy(d, i, j) == Spent(i, j)
      decreases j
    {
      if i < j {
        SpentAgree(d, i, j - 1);
      }
    }

    /**
     No policy that respects every window gets ahead of the bucket: the first
     request on which the two differ is one the bucket admits.
     */
    lemma GreedyIsMaximal(d: nat -> bool, j: nat)
      requires Valid() && j < |arrivals|
      requires forall i: nat, k: nat :: i <= k < |arrivals| ==> SpentBy(d, i, k + 1) <= Budget(i, k)
      requires forall k: nat :: k < j ==> d(k) == Policy()(k)
      requires d(j) != Admitted(j)
      ensures Admitted(j)
    {
      if d(j) {
        forall i: nat | i <= j ensures Spent(i, j) + arrivals[j].cost <= Budget(i, j) {
          SpentAgree(d, i, j);
          assert SpentBy(d, i, j + 1) <= Budget(i, j);
        }
        AdmittedExactly(j);
      }
    }
  }

  // ---- the limiter with a constant rate ----

  /** The state of a limiter of the class above before request `j`. */
  function LimiterBefore(rate: real, capacity: real, start: real, arrivals: seq<Arrival>, j: nat): State
    requires j <= |arrivals|
  {
    if j == 0 then State(capacity, start)
    else Consumed(LimiterBefore(rate, capacity, start, arrivals, j - 1), arrivals[j - 1], rate, capacity).0
  }

  /** The class and the run go through the same states. */
  lemma {:induction false} LimiterIsRun(rate: real, capacity: real, start: real, arrivals: seq<Arrival>, j: nat)
    requires j <= |arrivals|
    ensures var s, r := LimiterBefore(rate, capacity, start, arrivals, j), Run(Minted(rate), capacity, start, arrivals);
            && s == r.Before(j)
            && (j < |arrivals| ==> Consumed(s, arrivals[j], rate, capacity).1 == r.Admitted(j))
  {
    if j > 0 {
      LimiterIsRun(rate, capacity, start, arrivals, j - 1);
      ConsumedIsAdvanced(LimiterBefore(rate, capacity, start, arrivals, j - 1), arrivals[j - 1], rate, capacity);
    }
    if j < |arrivals| {
      ConsumedIsAdvanced(LimiterBefore(rate, capacity, start, arrivals, j), arrivals[j], rate, capacity);
    }
  }

  lemma MintedIncreases(rate: real, s: real, t: real)
    requires rate >= 0.0 && s <= t
    ensures Minted(rate)(s) <= Minted(rate)(t)
  {
    assert rate * (t - s) >= 0.0;
  }

  /** At a constant rate, any interval admits at most the burst plus rate times its length. */
  lemma RateLimitHolds(rate: real, r: Run, i: nat, j: nat, from: real, to: real)
    requires rate >= 0.0 && r.supply == Minted(rate) && r.capacity >= 0.0
    requires forall k :: 0 <= k < |r.arrivals| ==> r.start <= r.arrivals[k].time && r.arrivals[k].cost >= 0.0
    requires forall k, l :: 0 <= k <= l < |r.arrivals| ==> r.arrivals[k].time <= r.arrivals[l].time
    requires i <= j < |r.arrivals| && from <= r.arrivals[i].time && r.arrivals[j].time <= to
    ensures r.Spent(i, j + 1) <= r.capacity + rate * (to - from)
  {
    RunIsValid(rate, r);
    r.NoWindowOverflows(i, j);
    BudgetWithin(rate, r.capacity, r.arrivals[i].time, r.arrivals[j].time, from, to);
  }

  lemma RunIsValid(rate: real, r: Run)
    requires rate >= 0.0 && r.supply == Minted(rate) && r.capacity >= 0.0
    requires forall k :: 0 <= k < |r.arrivals| ==> r.start <= r.arrivals[k].time && r.arrivals[k].cost >= 0.0
    requires forall k, l :: 0 <= k <= l < |r.arrivals| ==> r.arrivals[k].time <= r.arrivals[l].time
    ensures r.Valid()
  {
    forall s, t | s <= t ensures r.supply(s) <= r.supply(t) {
      MintedIncreases(rate, s, t);
    }
  }

  lemma BudgetWithin(rate: real, capacity: real, s: real, t: real, from: real, to: real)
    requires rate >= 0.0 && from <= s && t <= to
    ensures capacity + (Minted(rate)(t) - Minted(rate)(s)) <= capacity + rate * (to - from)
  {
    MintedIncreases(rate, from, s);
    MintedIncreases(rate, t, to);
    Distribute(rate, to, from);
  }
}
