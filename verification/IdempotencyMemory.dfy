/**
 The deduplication tracker without a durable table: the size bound, and how
 many other keys it takes to make it forget one early.
 */
module IdempotencyMemory {
  import opened Results
  import opened OrderedDicts
  import opened Idempotency

  ghost predicate Bounded(s: State, p: Params) {
    s.cache.Valid() && s.cache.Size() <= p.capacity
  }

  /** What a check of `x` does to the order: evict the oldest of a full cache, and put `x` last. */
  function Reordered(o: seq<string>, x: string, capacity: nat): seq<string> {
    (if x !in o && |o| >= capacity && o != [] then o[1..] else Without(o, x)) + [x]
  }

  lemma CheckReorders(s: State, p: Params, x: string, now: real, r: Option<string>)
    requires !p.durable && p.capacity >= 1 && Bounded(s, p)
    ensures var s' := Checked(s, p, x, now, r, false, false).0;
            && Bounded(s', p)
            && s'.cache.order == Reordered(s.cache.order, x, p.capacity)
            && x in s'.cache.entries
            && forall k :: k in s'.cache.entries && k != x ==>
                k in s.cache.entries && s'.cache.entries[k] == s.cache.entries[k]
  {
    WithoutDistinct(s.cache.order, x);
  }

  /** Memory-only mode never holds more than `capacity` entries. */
  lemma {:induction false} SizeStaysBounded(s: State, p: Params, ops: seq<Op>, n: nat)
    requires !p.durable && p.capacity >= 1 && Bounded(s, p) && n <= |ops|
    ensures Bounded(TrackerAt(s, p, ops, n), p)
  {
    if n > 0 {
      SizeStaysBounded(s, p, ops, n - 1);
      if ops[n - 1].Check? {
        CheckReorders(TrackerAt(s, p, ops, n - 1), p, ops[n - 1].key, ops[n - 1].now, ops[n - 1].result);
      }
    }
  }

  // ---- what a refusal says ----

  /** What is cached under a key is its latest acceptance. */
  ghost predicate CachesLatest(t: State, key: string, latest: Option<Entry>) {
    key in t.cache.entries ==> latest == Some(t.cache.entries[key])
  }

  /** A refused check, or a result returned, goes back to an acceptance less than the TTL ago. */
  predicate Recent(a: Answer, op: Op, latest: Option<Entry>, ttl: real) {
    && (op.Check? && a == IsNew(false) ==> latest.Some? && op.now - latest.value.timestamp < ttl)
    && (op.Fetch? && a != Result(None) ==>
         latest.Some? && op.now - latest.value.timestamp < ttl && a == Result(latest.value.result))
  }

  lemma MemoryStep(t: State, p: Params, op: Op, key: string, latest: Option<Entry>)
    requires !p.durable && p.capacity >= 1 && Bounded(t, p) && CachesLatest(t, key, latest)
    ensures CachesLatest(TrackerStep(t, p, op).0, key,
                         if op.Clear? then None
                         else if op.Check? && op.key == key && TrackerStep(t, p, op).1 == IsNew(true)
                           then Some(Entry(op.now, op.result))
                         else latest)
    ensures op.Check? || op.Fetch? ==> op.key == key ==> Recent(TrackerStep(t, p, op).1, op, latest, p.ttl)
  {
    if op.Check? {
      CheckReorders(t, p, op.key, op.now, op.result);
    }
  }

  lemma {:induction false} MemoryCachesLatest(s: State, p: Params, ops: seq<Op>, n: nat, key: string)
    requires !p.durable && p.capacity >= 1 && Bounded(s, p) && n <= |ops|
    ensures CachesLatest(TrackerAt(s, p, ops, n), key, Latest(s, p, ops, n, key, s.cache.entries))
  {
    if n > 0 {
      SizeStaysBounded(s, p, ops, n - 1);
      MemoryCachesLatest(s, p, ops, n - 1, key);
      MemoryStep(TrackerAt(s, p, ops, n - 1), p, ops[n - 1], key, Latest(s, p, ops, n - 1, key, s.cache.entries));
    }
  }

  /** In memory-only mode, too, only a key accepted less than the TTL ago is refused. */
  lemma RefusedIsRecent(s: State, p: Params, ops: seq<Op>, n: nat)
    requires !p.durable && p.capacity >= 1 && Bounded(s, p) && n < |ops| && (ops[n].Check? || ops[n].Fetch?)
    ensures Recent(TrackerAnswer(s, p, ops, n), ops[n],
                   Latest(s, p, ops, n, ops[n].key, s.cache.entries), p.ttl)
  {
    SizeStaysBounded(s, p, ops, n);
    MemoryCachesLatest(s, p, ops, n, ops[n].key);
    MemoryStep(TrackerAt(s, p, ops, n), p, ops[n], ops[n].key, Latest(s, p, ops, n, ops[n].key, s.cache.entries));
  }

  // ---- what it takes to displace a key ----

  lemma {:induction false} DistinctWithin(s: seq<string>, t: set<string>)
    requires DistinctSeq(s) && forall x :: x in s ==> x in t
    ensures |s| <= |t|
  {
    if s != [] {
      assert s[0] !in s[1..];
      DistinctWithin(s[1..], t - {s[0]});
    }
  }

  /** `k` is cached with entry `e`, and only keys in `touched` were used after it. */
  ghost predicate Held(s: State, k: string, e: Entry, touched: set<string>) {
    && k in s.cache.entries && s.cache.entries[k] == e
    && exists pre, suf :: s.cache.order == pre + [k] + suf && forall x :: x in suf ==> x in touched
  }

  lemma Displacement(
      o: seq<string>, pre: seq<string>, suf: seq<string>, k: string, x: string, touched: set<string>, capacity: nat)
    returns (pre': seq<string>, suf': seq<string>)
    requires o == pre + [k] + suf && DistinctSeq(o) && |o| <= capacity && x != k
    requires forall y :: y in suf ==> y in touched
    requires |touched + {x}| < capacity
    ensures Reordered(o, x, capacity) == pre' + [k] + suf'
    ensures forall y :: y in suf' ==> y in touched + {x}
  {
    if x !in o && |o| >= capacity {
      assert pre != [] by {
        if pre == [] {
          assert o[1..] == suf;
          assert DistinctSeq(suf + [x]);
          DistinctWithin(suf + [x], touched + {x});
        }
      }
      pre', suf' := pre[1..], suf + [x];
      assert o[1..] == pre[1..] + [k] + suf;
    } else {
      WithoutAppend(pre + [k], suf, x);
      WithoutAppend(pre, [k], x);
      assert Without([k], x) == [k];
      pre', suf' := Without(pre, x), Without(suf, x) + [x];
      assert Reordered(o, x, capacity) == Without(pre, x) + [k] + Without(suf, x) + [x];
    }
  }

  lemma CheckHolds(
      s: State, p: Params, k: string, e: Entry, touched: set<string>, x: string, now: real, r: Option<string>)
    requires !p.durable && p.capacity >= 1 && Bounded(s, p)
    requires Held(s, k, e, touched) && x != k && |touched + {x}| < p.capacity
    ensures Held(Checked(s, p, x, now, r, false, false).0, k, e, touched + {x})
  {
    CheckReorders(s, p, x, now, r);
    var s' := Checked(s, p, x, now, r, false, false).0;
    var pre, suf :| s.cache.order == pre + [k] + suf && forall y :: y in suf ==> y in touched;
    var pre', suf' := Displacement(s.cache.order, pre, suf, k, x, touched, p.capacity);
    assert s'.cache.order[|pre'|] == k;
    assert k in s'.cache.entries;
  }

  /** The keys checked by the operations `i .. j-1`. */
  function KeysBetween(ops: seq<Op>, i: nat, j: nat): set<string>
    requires i <= j <= |ops|
  {
    if i == j then {}
    else KeysBetween(ops, i, j - 1) + if ops[j - 1].Check? then {ops[j - 1].key} else {}
  }

  lemma {:induction false} HeldUntil(s: State, p: Params, ops: seq<Op>, k: string, e: Entry, i: nat, j: nat)
    requires !p.durable && p.capacity >= 1 && Bounded(s, p) && i <= j <= |ops|
    requires Held(TrackerAt(s, p, ops, i), k, e, {})
    requires forall n :: i <= n < j ==> (ops[n].Check? && ops[n].key != k) || ops[n].Fetch?
    requires |KeysBetween(ops, i, j)| < p.capacity
    ensures Held(TrackerAt(s, p, ops, j), k, e, KeysBetween(ops, i, j))
    decreases j
  {
    if i < j {
      var t := KeysBetween(ops, i, j - 1);
      SubsetSmaller(t, KeysBetween(ops, i, j));
      HeldUntil(s, p, ops, k, e, i, j - 1);
      SizeStaysBounded(s, p, ops, j - 1);
      if ops[j - 1].Check? {
        CheckHolds(TrackerAt(s, p, ops, j - 1), p, k, e, t, ops[j - 1].key, ops[j - 1].now, ops[j - 1].result);
      } else {
        assert KeysBetween(ops, i, j) == t;
      }
    }
  }

  lemma SubsetSmaller(a: set<string>, b: set<string>)
    requires a <= b
    ensures |a| <= |b|
  {
    assert b == a + (b - a);
  }

  lemma HeldAfterCheck(s: State, after: State, p: Params, k: string, now: real, r: Option<string>)
    requires !p.durable && p.capacity >= 1 && Bounded(s, p) && after == Checked(s, p, k, now, r, false, false).0
    ensures JustChecked(after, k)
  {
    CheckReorders(s, p, k, now, r);
    var pre := after.cache.order[..|after.cache.order| - 1];
    assert after.cache.order == pre + [k] + [];
    assert k in after.cache.order;
  }

  /** The key was checked last. */
  ghost predicate JustChecked(s: State, k: string) {
    k in s.cache.entries && Held(s, k, s.cache.entries[k], {})
  }

  /** The key's cached entry has not expired by `now`. */
  predicate LiveIn(s: State, p: Params, k: string, now: real) {
    k in s.cache.entries ==> Fresh(s.cache.entries[k], now, p.ttl)
  }

  /**
   In memory-only mode, operation `j` checks the key that operation `i` checked,
   with no check of it, no clear and no restart between, before its entry expires.
   */
  ghost predicate Recheck(s: State, p: Params, ops: seq<Op>, i: nat, j: nat) {
    && !p.durable && p.capacity >= 1 && Bounded(s, p)
    && i < j < |ops| && ops[i].Check? && ops[j].Check? && ops[i].key == ops[j].key
    && (forall n :: i < n < j ==> (ops[n].Check? && ops[n].key != ops[i].key) || ops[n].Fetch?)
    && LiveIn(TrackerAt(s, p, ops, i + 1), p, ops[i].key, ops[j].now)
  }

  lemma HeldNext(s: State, p: Params, ops: seq<Op>, i: nat, j: nat)
    requires Recheck(s, p, ops, i, j)
    ensures JustChecked(TrackerAt(s, p, ops, i + 1), ops[i].key)
  {
    SizeStaysBounded(s, p, ops, i);
    HeldAfterCheck(TrackerAt(s, p, ops, i), TrackerAt(s, p, ops, i + 1), p, ops[i].key, ops[i].now, ops[i].result);
  }

  lemma StillKnown(s: State, p: Params, ops: seq<Op>, i: nat, j: nat)
    requires Recheck(s, p, ops, i, j) && |KeysBetween(ops, i + 1, j)| < p.capacity
    requires JustChecked(TrackerAt(s, p, ops, i + 1), ops[i].key)
    ensures TrackerAnswer(s, p, ops, j) == IsNew(false)
  {
    var k := ops[i].key;
    var e := TrackerAt(s, p, ops, i + 1).cache.entries[k];
    HeldUntil(s, p, ops, k, e, i + 1, j);
    HeldIsKnown(TrackerAt(s, p, ops, j), p, k, e, KeysBetween(ops, i + 1, j), ops[j]);
  }

  lemma HeldIsKnown(s: State, p: Params, k: string, e: Entry, touched: set<string>, op: Op)
    requires Held(s, k, e, touched) && op.Check? && op.key == k && Fresh(e, op.now, p.ttl)
    ensures TrackerStep(s, p, op).1 == IsNew(false)
  {
    var pre, suf :| s.cache.order == pre + [k] + suf && forall y :: y in suf ==> y in touched;
    assert s.cache.order[|pre|] == k;
  }

  /**
   A live key is taken for new only if at least `capacity` distinct other keys
   were checked since its last check.
   */
  lemma EarlyForgettingNeedsCapacityKeys(s: State, p: Params, ops: seq<Op>, i: nat, j: nat)
    requires Recheck(s, p, ops, i, j) && TrackerAnswer(s, p, ops, j) == IsNew(true)
    ensures |KeysBetween(ops, i + 1, j)| >= p.capacity
  {
    HeldNext(s, p, ops, i, j);
    if |KeysBetween(ops, i + 1, j)| < p.capacity {
      StillKnown(s, p, ops, i, j);
    }
  }
}
