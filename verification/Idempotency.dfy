/**
 The deduplication tracker of the integration layer
 (integration/adapters/idempotency.py): a bounded in-memory LRU in front of an
 optional durable table.
 */
module Idempotency {
  import opened Results
  import opened OrderedDicts

  datatype Entry = Entry(timestamp: real, result: Option<string>)

  datatype Params = Params(capacity: nat, ttl: real, durable: bool)

  /** The in-memory cache and the durable table. */
  datatype State = State(cache: OrderedDict<Entry>, store: map<string, Entry>)

  function MakeKey(tenant: string, event: string): string {
    tenant + ":" + event
  }

  /** Keys of different (tenant, event) pairs differ when tenant ids have no colon. */
  lemma KeysAreSeparate(t1: string, e1: string, t2: string, e2: string)
    requires ':' !in t1 && ':' !in t2
    ensures MakeKey(t1, e1) == MakeKey(t2, e2) <==> t1 == t2 && e1 == e2
  {
    if MakeKey(t1, e1) == MakeKey(t2, e2) {
      ColonSplit(t1, e1, t2, e2);
    }
  }

  predicate Fresh(e: Entry, now: real, ttl: real) {
    now - e.timestamp < ttl
  }

  // ---- check_and_set ----

  /** Step 3 and 4: record a new event, evicting the oldest entry of a full cache. */
  function Recorded(s: State, p: Params, key: string, now: real, result: Option<string>, writeFails: bool): State {
    var cache := if s.cache.Size() >= p.capacity && s.cache.order != [] then s.cache.PopFirst() else s.cache;
    State(cache.Assign(key, Entry(now, result)),
          if p.durable && !writeFails then s.store[key := Entry(now, result)] else s.store)
  }

  /** Steps 2 to 4, once the cache has no live entry for the key. */
  function Consulted(
      s: State, p: Params, key: string, now: real, result: Option<string>, readFails: bool,
      writeFails: bool): (State, bool) {
    if p.durable && !readFails && key in s.store then
      if Fresh(s.store[key], now, p.ttl) then (s.(cache := s.cache.Assign(key, s.store[key])), false)
      else (Recorded(s.(store := s.store - {key}), p, key, now, result, writeFails), true)
    else (Recorded(s, p, key, now, result, writeFails), true)
  }

  /** The whole call; the flags say which store access, if any, raises. */
  function Checked(
      s: State, p: Params, key: string, now: real, result: Option<string>, readFails: bool,
      writeFails: bool): (State, bool) {
    if key in s.cache.entries then
      if Fresh(s.cache.entries[key], now, p.ttl) && key in s.cache.order
          then (s.(cache := s.cache.MoveToEnd(key)), false)
      else Consulted(s.(cache := s.cache.Delete(key)), p, key, now, result, readFails, writeFails)
    else Consulted(s, p, key, now, result, readFails, writeFails)
  }

  /** `readFails`: reading the table raises, which the source swallows. */
  function CachedResult(s: State, p: Params, key: string, now: real, readFails: bool): Option<string> {
    if key in s.cache.entries && Fresh(s.cache.entries[key], now, p.ttl) then s.cache.entries[key].result
    else if p.durable && !readFails && key in s.store && Fresh(s.store[key], now, p.ttl) then s.store[key].result
    else None
  }

  /** The key is held with a time less than the TTL ago. */
  predicate Known(m: map<string, Entry>, p: Params, key: string, now: real) {
    key in m && now - m[key].timestamp < p.ttl
  }

  predicate Holds(m: map<string, Entry>, key: string, e: Entry) {
    key in m && m[key] == e
  }

  /** The new entry is in memory, and in the table if it can be written; nothing else changes in the table. */
  ghost predicate Took(s: State, s': State, p: Params, key: string, e: Entry, writeFails: bool) {
    && Holds(s'.cache.entries, key, e) && (p.durable && !writeFails ==> Holds(s'.store, key, e))
    && s'.store - {key} == s.store - {key} && (!p.durable ==> s'.store == s.store)
  }

  lemma RecordedExactly(s: State, p: Params, key: string, now: real, result: Option<string>, writeFails: bool)
    ensures Took(s, Recorded(s, p, key, now, result, writeFails), p, key, Entry(now, result), writeFails)
  {
  }

  lemma ConsultedExactly(
      s: State, p: Params, key: string, now: real, result: Option<string>, readFails: bool, writeFails: bool)
    ensures var (s', isNew) := Consulted(s, p, key, now, result, readFails, writeFails);
            && (isNew <==> !(p.durable && !readFails && Known(s.store, p, key, now)))
            && if isNew then Took(s, s', p, key, Entry(now, result), writeFails) else s'.store == s.store
  {
    RecordedExactly(s, p, key, now, result, writeFails);
    var emptied := s.(store := s.store - {key});
    RecordedExactly(emptied, p, key, now, result, writeFails);
    assert emptied.store - {key} == s.store - {key};
  }

  /**
   Whatever raises: a key is new exactly if neither memory nor a readable table holds
   it alive; then memory holds the new entry, and so does the table if it can be
   written; other rows, and the table of a memory-only tracker, stay as they are.
   */
  lemma CheckedExactly(
      s: State, p: Params, key: string, now: real, result: Option<string>, readFails: bool, writeFails: bool)
    requires s.cache.Valid()
    ensures var (s', isNew) := Checked(s, p, key, now, result, readFails, writeFails);
            && (isNew <==> !Known(s.cache.entries, p, key, now)
                           && !(p.durable && !readFails && Known(s.store, p, key, now)))
            && if isNew then Took(s, s', p, key, Entry(now, result), writeFails) else s'.store == s.store
  {
    ConsultedExactly(s, p, key, now, result, readFails, writeFails);
    ConsultedExactly(s.(cache := s.cache.Delete(key)), p, key, now, result, readFails, writeFails);
  }

  /** `deleteFails`: emptying the table raises, which the source swallows; the rows then stay. */
  function Cleared(s: State, p: Params, deleteFails: bool): State {
    State(OrderedDict([], map[]), if p.durable && !deleteFails then map[] else s.store)
  }

  class IdempotencyTracker {
    const p: Params
    var cache: OrderedDict<Entry>
    var store: map<string, Entry>

    ghost predicate Valid()
      reads this
    {
      p.capacity >= 1 && cache.Valid()
    }

    function Abstract(): State
      reads this
    {
      State(cache, store)
    }

    /** Opens a tracker over whatever the durable table already holds. */
    constructor (p: Params, existing: map<string, Entry>)
      requires p.capacity >= 1
      ensures Valid() && this.p == p && Abstract() == State(OrderedDict([], map[]), existing)
    {
      this.p := p;
      cache, store := OrderedDict([], map[]), existing;
    }

    method CheckAndSet(
        tenant: string, event: string, now: real, result: Option<string>, readFails: bool, writeFails: bool)
      returns (isNew: bool)
      requires Valid()
      modifies this
      ensures Valid()
      ensures (Abstract(), isNew) == Checked(old(Abstract()), p, MakeKey(tenant, event), now, result, readFails,
              writeFails)
    {
      var key := MakeKey(tenant, event);
      if key in cache.entries {
        var entry := cache.entries[key];
        if now - entry.timestamp < p.ttl {
          cache := cache.MoveToEnd(key);
          return false;
        }
        cache := cache.Delete(key);
      }
      if p.durable && !readFails && key in store {
        if now - store[key].timestamp < p.ttl {
          cache := cache.Assign(key, store[key]);
          return false;
        }
        store := store - {key};
      }
      if cache.Size() >= p.capacity {
        cache := cache.PopFirst();
      }
      cache := cache.Assign(key, Entry(now, result));
      if p.durable && !writeFails {
        store := store[key := Entry(now, result)];
      }
      return true;
    }

    method GetCachedResult(tenant: string, event: string, now: real, readFails: bool) returns (result: Option<string>)
      ensures result == CachedResult(Abstract(), p, MakeKey(tenant, event), now, readFails)
      ensures result == if Known(cache.entries, p, MakeKey(tenant, event), now)
                        then cache.entries[MakeKey(tenant, event)].result
                        else if p.durable && !readFails && Known(store, p, MakeKey(tenant, event), now)
                        then store[MakeKey(tenant, event)].result else None
    {
      var key := MakeKey(tenant, event);
      if key in cache.entries && now - cache.entries[key].timestamp < p.ttl {
        return cache.entries[key].result;
      }
      if p.durable && !readFails && key in store && now - store[key].timestamp < p.ttl {
        return store[key].result;
      }
      return None;
    }

    method Clear(deleteFails: bool)
      modifies this
      ensures Abstract() == Cleared(old(Abstract()), p, deleteFails)
      ensures cache.order == [] && store == if p.durable && !deleteFails then map[] else old(store)
      ensures p.capacity >= 1 ==> Valid()
    {
      cache := OrderedDict([], map[]);
      if p.durable && !deleteFails {
        store := map[];
      }
    }
  }

  // ---- durable mode answers like one plain map ----

  /** Everything cached is what the table holds. */
  ghost predicate Coherent(s: State) {
    s.cache.Valid() && forall k :: k in s.cache.entries ==> k in s.store && s.store[k] == s.cache.entries[k]
  }

  /** The reference: a map from keys to their last acceptance. */
  function Accepted(
      m: map<string, Entry>, ttl: real, key: string, now: real, result: Option<string>): (map<string, Entry>, bool) {
    if key in m && Fresh(m[key], now, ttl) then (m, false) else (m[key := Entry(now, result)], true)
  }

  function Remembered(m: map<string, Entry>, ttl: real, key: string, now: real): Option<string> {
    if key in m && Fresh(m[key], now, ttl) then m[key].result else None
  }

  lemma RoomRefines(cache: OrderedDict<Entry>, store: map<string, Entry>)
    requires Coherent(State(cache, store)) && cache.order != []
    ensures Coherent(State(cache.PopFirst(), store))
  {
  }

  lemma AssignRefines(cache: OrderedDict<Entry>, store: map<string, Entry>, key: string, e: Entry)
    requires Coherent(State(cache, store))
    ensures Coherent(State(cache.Assign(key, e), store[key := e]))
  {
  }

  /** A new acceptance is cached and stored alike. */
  lemma RecordedRefines(s: State, p: Params, key: string, now: real, result: Option<string>)
    requires p.durable && Coherent(s)
    ensures var s' := Recorded(s, p, key, now, result, false);
            Coherent(s') && s'.store == s.store[key := Entry(now, result)]
  {
    if s.cache.order != [] {
      RoomRefines(s.cache, s.store);
      AssignRefines(s.cache.PopFirst(), s.store, key, Entry(now, result));
    }
    AssignRefines(s.cache, s.store, key, Entry(now, result));
  }

  /** An expired row is deleted first; nothing cached refers to it. */
  lemma StaleRefines(s: State, p: Params, key: string, now: real, result: Option<string>)
    requires p.durable && Coherent(s) && key !in s.cache.entries
    ensures var s' := Recorded(s.(store := s.store - {key}), p, key, now, result, false);
            Coherent(s') && s'.store == s.store[key := Entry(now, result)]
  {
    ForgetRefines(s, key);
    RecordedRefines(s.(store := s.store - {key}), p, key, now, result);
    Overwritten(s.store, key, Entry(now, result));
  }

  lemma ForgetRefines(s: State, key: string)
    requires Coherent(s) && key !in s.cache.entries
    ensures Coherent(s.(store := s.store - {key}))
  {
  }

  lemma Overwritten(m: map<string, Entry>, key: string, e: Entry)
    ensures (m - {key})[key := e] == m[key := e]
  {
  }

  lemma ConsultedRefines(s: State, p: Params, key: string, now: real, result: Option<string>)
    requires p.durable && Coherent(s) && key !in s.cache.entries
    ensures Refines(Consulted(s, p, key, now, result, false, false), Accepted(s.store, p.ttl, key, now, result))
  {
    if key !in s.store {
      RecordedRefines(s, p, key, now, result);
    } else if !Fresh(s.store[key], now, p.ttl) {
      StaleRefines(s, p, key, now, result);
    }
  }

  /** A tracker's new state and answer agree with the plain map's. */
  ghost predicate Refines(t: (State, bool), m: (map<string, Entry>, bool)) {
    Coherent(t.0) && t.0.store == m.0 && t.1 == m.1
  }

  lemma CheckedRefines(s: State, p: Params, key: string, now: real, result: Option<string>)
    requires p.durable && Coherent(s)
    ensures Refines(Checked(s, p, key, now, result, false, false), Accepted(s.store, p.ttl, key, now, result))
  {
    if key !in s.cache.entries {
      ConsultedRefines(s, p, key, now, result);
    } else if !Fresh(s.cache.entries[key], now, p.ttl) {
      ConsultedRefines(s.(cache := s.cache.Delete(key)), p, key, now, result);
    }
  }

  /** Calls, and restarts that lose the memory but not the table. */
  datatype Op =
    | Check(key: string, now: real, result: Option<string>)
    | Fetch(key: string, now: real)
    | Restart
    | Clear

  datatype Answer = IsNew(b: bool) | Result(r: Option<string>) | Done

  function TrackerStep(s: State, p: Params, op: Op): (State, Answer) {
    match op
    case Check(k, now, r) => var (s', b) := Checked(s, p, k, now, r, false, false); (s', IsNew(b))
    case Fetch(k, now) => (s, Result(CachedResult(s, p, k, now, false)))
    case Restart => (s.(cache := OrderedDict([], map[])), Done)
    case Clear => (Cleared(s, p, false), Done)
  }

  function PlainStep(m: map<string, Entry>, ttl: real, op: Op): (map<string, Entry>, Answer) {
    match op
    case Check(k, now, r) => var (m', b) := Accepted(m, ttl, k, now, r); (m', IsNew(b))
    case Fetch(k, now) => (m, Result(Remembered(m, ttl, k, now)))
    case Restart => (m, Done)
    case Clear => (map[], Done)
  }

  /** The state before operation `n`. */
  function TrackerAt(s: State, p: Params, ops: seq<Op>, n: nat): State
    requires n <= |ops|
  {
    if n == 0 then s else TrackerStep(TrackerAt(s, p, ops, n - 1), p, ops[n - 1]).0
  }

  function PlainAt(m: map<string, Entry>, ttl: real, ops: seq<Op>, n: nat): map<string, Entry>
    requires n <= |ops|
  {
    if n == 0 then m else PlainStep(PlainAt(m, ttl, ops, n - 1), ttl, ops[n - 1]).0
  }

  function TrackerAnswer(s: State, p: Params, ops: seq<Op>, n: nat): Answer
    requires n < |ops|
  {
    TrackerStep(TrackerAt(s, p, ops, n), p, ops[n]).1
  }

  function PlainAnswer(m: map<string, Entry>, ttl: real, ops: seq<Op>, n: nat): Answer
    requires n < |ops|
  {
    PlainStep(PlainAt(m, ttl, ops, n), ttl, ops[n]).1
  }

  lemma StepRefines(s: State, p: Params, op: Op)
    requires p.durable && p.capacity >= 1 && Coherent(s)
    ensures Coherent(TrackerStep(s, p, op).0)
    ensures TrackerStep(s, p, op).0.store == PlainStep(s.store, p.ttl, op).0
    ensures TrackerStep(s, p, op).1 == PlainStep(s.store, p.ttl, op).1
  {
    if op.Check? {
      CheckedRefines(s, p, op.key, op.now, op.result);
    }
  }

  /** The tracker's table is the plain map. */
  ghost predicate InStep(s: State, m: map<string, Entry>) {
    Coherent(s) && s.store == m
  }

  lemma StepInStep(s: State, m: map<string, Entry>, p: Params, op: Op)
    requires p.durable && p.capacity >= 1 && InStep(s, m)
    ensures InStep(TrackerStep(s, p, op).0, PlainStep(m, p.ttl, op).0)
    ensures TrackerStep(s, p, op).1 == PlainStep(m, p.ttl, op).1
  {
    StepRefines(s, p, op);
  }

  lemma {:induction false} StatesRefine(s: State, m: map<string, Entry>, p: Params, ops: seq<Op>, n: nat)
    requires p.durable && p.capacity >= 1 && InStep(s, m) && n <= |ops|
    ensures InStep(TrackerAt(s, p, ops, n), PlainAt(m, p.ttl, ops, n))
  {
    if n > 0 {
      StatesRefine(s, m, p, ops, n - 1);
      StepInStep(TrackerAt(s, p, ops, n - 1), PlainAt(m, p.ttl, ops, n - 1), p, ops[n - 1]);
    }
  }

  /** Whatever was evicted or lost in a restart, every answer is the plain map's answer. */
  lemma TrackerIsPlainMap(s: State, p: Params, ops: seq<Op>, n: nat)
    requires p.durable && p.capacity >= 1 && Coherent(s) && n < |ops|
    ensures TrackerAnswer(s, p, ops, n) == PlainAnswer(s.store, p.ttl, ops, n)
  {
    StatesRefine(s, s.store, p, ops, n);
    StepInStep(TrackerAt(s, p, ops, n), PlainAt(s.store, p.ttl, ops, n), p, ops[n]);
  }

  lemma {:induction false} StampGrows(m: map<string, Entry>, ttl: real, ops: seq<Op>, i: nat, n: nat)
    requires ttl >= 0.0 && i < n <= |ops| && ops[i].Check?
    requires PlainAnswer(m, ttl, ops, i) == IsNew(true)
    requires forall k :: i < k < n ==> !ops[k].Clear?
    ensures ops[i].key in PlainAt(m, ttl, ops, n)
    ensures PlainAt(m, ttl, ops, n)[ops[i].key].timestamp >= ops[i].now
  {
    if i < n - 1 {
      StampGrows(m, ttl, ops, i, n - 1);
    }
  }

  /** Two acceptances of one key, with no clear between, are at least the TTL apart. */
  lemma AcceptancesAreSpaced(s: State, p: Params, ops: seq<Op>, i: nat, j: nat)
    requires p.durable && p.capacity >= 1 && p.ttl >= 0.0 && Coherent(s)
    requires i < j < |ops| && ops[i].Check? && ops[j].Check? && ops[i].key == ops[j].key
    requires forall k :: i < k < j ==> !ops[k].Clear?
    requires TrackerAnswer(s, p, ops, i) == TrackerAnswer(s, p, ops, j) == IsNew(true)
    ensures ops[j].now - ops[i].now >= p.ttl
  {
    TrackerIsPlainMap(s, p, ops, i);
    TrackerIsPlainMap(s, p, ops, j);
    StampGrows(s.store, p.ttl, ops, i, j);
  }

  // ---- what an answer says about the calls before it ----

  /**
   The key's latest acceptance before operation `n`, read off the answers given
   since the last clear; before any, what was held at the start.
   */
  function Latest(s: State, p: Params, ops: seq<Op>, n: nat, key: string, held: map<string, Entry>): Option<Entry>
    requires n <= |ops|
  {
    if n == 0 then if key in held then Some(held[key]) else None
    else match ops[n - 1]
      case Check(k, now, result) =>
        if k == key && TrackerAnswer(s, p, ops, n - 1) == IsNew(true) then Some(Entry(now, result))
        else Latest(s, p, ops, n - 1, key, held)
      case Clear => None
      case _ => Latest(s, p, ops, n - 1, key, held)
  }

  /** The answer to a call when this is the key's latest acceptance. */
  predicate Answers(a: Answer, op: Op, latest: Option<Entry>, ttl: real) {
    match op
    case Check(_, now, _) => a == IsNew(latest.None? || now - latest.value.timestamp >= ttl)
    case Fetch(_, now) =>
      a == Result(if latest.Some? && now - latest.value.timestamp < ttl then latest.value.result else None)
    case _ => true
  }

  /** The plain map holds the key's latest acceptance. */
  ghost predicate HoldsLatest(m: map<string, Entry>, key: string, latest: Option<Entry>) {
    latest == if key in m then Some(m[key]) else None
  }

  lemma PlainStepHolds(m: map<string, Entry>, ttl: real, op: Op, key: string, latest: Option<Entry>)
    requires HoldsLatest(m, key, latest)
    ensures HoldsLatest(PlainStep(m, ttl, op).0, key,
                        if op.Clear? then None
                        else if op.Check? && op.key == key && PlainStep(m, ttl, op).1 == IsNew(true)
                          then Some(Entry(op.now, op.result))
                        else latest)
    ensures op.Check? || op.Fetch? ==> op.key == key ==> Answers(PlainStep(m, ttl, op).1, op, latest, ttl)
  {
  }

  lemma {:induction false} PlainHoldsLatest(s: State, p: Params, ops: seq<Op>, n: nat, key: string)
    requires p.durable && p.capacity >= 1 && Coherent(s) && n <= |ops|
    ensures HoldsLatest(PlainAt(s.store, p.ttl, ops, n), key, Latest(s, p, ops, n, key, s.store))
  {
    if n > 0 {
      PlainHoldsLatest(s, p, ops, n - 1, key);
      TrackerIsPlainMap(s, p, ops, n - 1);
      PlainStepHolds(PlainAt(s.store, p.ttl, ops, n - 1), p.ttl, ops[n - 1], key,
                     Latest(s, p, ops, n - 1, key, s.store));
    }
  }

  /**
   In every run a check is refused exactly if the key's latest acceptance is less
   than the TTL ago, and a fetch returns exactly that acceptance's result.
   */
  lemma AnswersExactly(s: State, p: Params, ops: seq<Op>, n: nat)
    requires p.durable && p.capacity >= 1 && Coherent(s) && n < |ops| && (ops[n].Check? || ops[n].Fetch?)
    ensures Answers(TrackerAnswer(s, p, ops, n), ops[n], Latest(s, p, ops, n, ops[n].key, s.store), p.ttl)
  {
    TrackerIsPlainMap(s, p, ops, n);
    PlainHoldsLatest(s, p, ops, n, ops[n].key);
    PlainStepHolds(PlainAt(s.store, p.ttl, ops, n), p.ttl, ops[n], ops[n].key,
                   Latest(s, p, ops, n, ops[n].key, s.store));
  }
}
