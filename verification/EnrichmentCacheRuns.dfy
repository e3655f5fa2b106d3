/**
 Runs of the enrichment cache (M4/app/cache/memory_lru.py): what a lookup finds,
 and which entry gives way to a new one.
 */
module EnrichmentCacheRuns {
  import opened Results
  import opened OrderedDicts
  import opened EnrichmentCache

  datatype Op = Look(slot: Slot, now: real) | Keep(entry: CacheEntry) | Drop(slot: Slot) | Empty

  function Next(d: Cached, maxSize: nat, op: Op): Cached {
    match op
    case Look(slot, now) => Fetched(d, BuildKey(slot), now).0
    case Keep(entry) => Stored(d, maxSize, entry)
    case Drop(slot) => if BuildKey(slot) in d.entries then d.Delete(BuildKey(slot)) else d
    case Empty => OrderedDict([], map[])
  }

  /** The cache before operation `n`; it starts empty. */
  function At(ops: seq<Op>, maxSize: nat, n: nat): Cached
    requires n <= |ops|
  {
    if n == 0 then OrderedDict([], map[]) else Next(At(ops, maxSize, n - 1), maxSize, ops[n - 1])
  }

  /** The key an operation uses: the one it stores under, or at which it finds a live entry. */
  function Used(d: Cached, op: Op): set<string> {
    match op
    case Look(slot, now) =>
      var key := BuildKey(slot);
      if key in d.entries && now - d.entries[key].cachedAt <= d.entries[key].ttl as real then {key} else {}
    case Keep(entry) => {BuildKey(entry.slot)}
    case _ => {}
  }

  /** The latest of the first `n` operations that used the key; -1 if none did. */
  function LastUse(ops: seq<Op>, maxSize: nat, n: nat, key: string): (i: int)
    requires n <= |ops|
    ensures -1 <= i < n
  {
    if n == 0 then -1
    else if key in Used(At(ops, maxSize, n - 1), ops[n - 1]) then n - 1
    else LastUse(ops, maxSize, n - 1, key)
  }

  /** What was last stored under the key and not dropped since, whether or not it is still held. */
  function LastKept(ops: seq<Op>, n: nat, key: string): Option<CacheEntry>
    requires n <= |ops|
  {
    if n == 0 then None
    else match ops[n - 1]
      case Keep(entry) => if BuildKey(entry.slot) == key then Some(entry) else LastKept(ops, n - 1, key)
      case Drop(slot) => if BuildKey(slot) == key then None else LastKept(ops, n - 1, key)
      case Empty => None
      case Look(_, _) => LastKept(ops, n - 1, key)
  }

  // ---- the order of the cache is the order of use ----

  ghost predicate Ascends(s: seq<string>, use: string -> int) {
    forall i, j :: 0 <= i < j < |s| ==> use(s[i]) < use(s[j])
  }

  /** The keys are listed by their latest use, and every one was used. */
  ghost predicate ByUse(d: Cached, use: string -> int, n: nat) {
    Ascends(d.order, use) && forall k :: k in d.order ==> 0 <= use(k) < n
  }

  function Later(use: string -> int, used: set<string>, n: nat): string -> int {
    k => if k in used then n else use(k)
  }

  lemma {:induction false} WithoutAscends(s: seq<string>, use: string -> int, key: string)
    requires Ascends(s, use)
    ensures Ascends(Without(s, key), use)
  {
    if s != [] {
      WithoutAscends(s[1..], use, key);
      var rest := Without(s[1..], key);
      forall j | 0 <= j < |rest| ensures use(s[0]) < use(rest[j]) {
        assert rest[j] in s[1..];
      }
    }
  }

  /** Without the used key, the others keep their order, and the used one comes last. */
  lemma UseMovesLast(s: seq<string>, use: string -> int, key: string, n: nat)
    requires Ascends(s, use) && forall k :: k in s ==> 0 <= use(k) < n
    ensures Ascends(Without(s, key), Later(use, {key}, n))
    ensures Ascends(Without(s, key) + [key], Later(use, {key}, n))
  {
    WithoutAscends(s, use, key);
    var rest := Without(s, key);
    assert forall i :: 0 <= i < |rest| ==> rest[i] in rest && Later(use, {key}, n)(rest[i]) == use(rest[i]);
  }

  lemma KeepOrder(d: Cached, maxSize: nat, e: CacheEntry) returns (kept: seq<string>)
    requires d.Valid() && maxSize >= 1
    ensures kept == d.order || (d.order != [] && kept == d.order[1..])
    ensures Stored(d, maxSize, e).order == Without(kept, BuildKey(e.slot)) + [BuildKey(e.slot)]
  {
    var key := BuildKey(e.slot);
    kept := if key !in d.order && d.Size() >= maxSize && d.order != [] then d.order[1..] else d.order;
  }

  lemma KeepMovesLast(d: Cached, maxSize: nat, e: CacheEntry, use: string -> int, n: nat)
    requires Filed(d, maxSize) && maxSize >= 1 && ByUse(d, use, n)
    ensures ByUse(Stored(d, maxSize, e), Later(use, {BuildKey(e.slot)}, n), n + 1)
  {
    var kept := KeepOrder(d, maxSize, e);
    assert forall k :: k in kept ==> k in d.order;
    UseMovesLast(kept, use, BuildKey(e.slot), n);
  }

  lemma LookMovesLast(d: Cached, maxSize: nat, key: string, now: real, use: string -> int, n: nat, used: set<string>)
    requires Filed(d, maxSize) && ByUse(d, use, n)
    requires used == if Fetched(d, key, now).1.Some? then {key} else {}
    ensures ByUse(Fetched(d, key, now).0, Later(use, used, n), n + 1)
  {
    UseMovesLast(d.order, use, key, n);
    WithoutAscends(d.order, use, key);
    assert used == {} ==> forall k :: Later(use, used, n)(k) == use(k);
  }

  lemma NextByUse(d: Cached, maxSize: nat, op: Op, use: string -> int, n: nat)
    requires Filed(d, maxSize) && maxSize >= 1 && ByUse(d, use, n)
    ensures ByUse(Next(d, maxSize, op), Later(use, Used(d, op), n), n + 1)
  {
    match op
    case Look(slot, now) => LookMovesLast(d, maxSize, BuildKey(slot), now, use, n, Used(d, op));
    case Keep(e) => KeepMovesLast(d, maxSize, e, use, n);
    case Drop(slot) => WithoutAscends(d.order, use, BuildKey(slot));
    case Empty =>
  }

  lemma NextFiled(d: Cached, maxSize: nat, op: Op)
    requires Filed(d, maxSize) && maxSize >= 1
    ensures Filed(Next(d, maxSize, op), maxSize)
  {
    match op
    case Look(slot, now) => FetchKeeps(d, maxSize, BuildKey(slot), now);
    case Keep(e) => StoreKeeps(d, maxSize, e);
    case Drop(slot) =>
    case Empty =>
  }

  lemma {:induction false} RunFiled(ops: seq<Op>, maxSize: nat, n: nat)
    requires maxSize >= 1 && n <= |ops|
    ensures Filed(At(ops, maxSize, n), maxSize)
  {
    if n > 0 {
      RunFiled(ops, maxSize, n - 1);
      NextFiled(At(ops, maxSize, n - 1), maxSize, ops[n - 1]);
    }
  }

  ghost function UseAt(ops: seq<Op>, maxSize: nat, n: nat): string -> int
    requires n <= |ops|
  {
    k => LastUse(ops, maxSize, n, k)
  }

  lemma ByUseAgrees(d: Cached, f: string -> int, g: string -> int, n: nat)
    requires ByUse(d, f, n) && forall k :: f(k) == g(k)
    ensures ByUse(d, g, n)
  {
  }

  /** In every run the cache lists its keys by their latest use. */
  lemma {:induction false} OrderIsRecency(ops: seq<Op>, maxSize: nat, n: nat)
    requires maxSize >= 1 && n <= |ops|
    ensures ByUse(At(ops, maxSize, n), UseAt(ops, maxSize, n), n)
  {
    if n > 0 {
      OrderIsRecency(ops, maxSize, n - 1);
      RunFiled(ops, maxSize, n - 1);
      var d, use := At(ops, maxSize, n - 1), UseAt(ops, maxSize, n - 1);
      NextByUse(d, maxSize, ops[n - 1], use, n - 1);
      ByUseAgrees(At(ops, maxSize, n), Later(use, Used(d, ops[n - 1]), n - 1), UseAt(ops, maxSize, n), n);
    }
  }

  // ---- what each operation does, in terms of the calls before it ----

  /** Every other key the cache holds was used after this one. */
  ghost predicate LeastRecent(ops: seq<Op>, maxSize: nat, n: nat, key: string) {
    && n <= |ops| && key in At(ops, maxSize, n).entries
    && forall k :: k in At(ops, maxSize, n).entries && k != key ==>
         LastUse(ops, maxSize, n, key) < LastUse(ops, maxSize, n, k)
  }

  lemma FirstIsLeastRecent(ops: seq<Op>, maxSize: nat, n: nat)
    requires maxSize >= 1 && n <= |ops| && At(ops, maxSize, n).order != []
    ensures LeastRecent(ops, maxSize, n, At(ops, maxSize, n).order[0])
  {
    RunFiled(ops, maxSize, n);
    OrderIsRecency(ops, maxSize, n);
    var d, use := At(ops, maxSize, n), UseAt(ops, maxSize, n);
    assert d.order[0] in d.order;
    forall k | k in d.entries && k != d.order[0] ensures use(d.order[0]) < use(k) {
      assert k in d.order;
      var j :| 0 <= j < |d.order| && d.order[j] == k;
    }
  }

  /** A new entry displaces one other, the least recently used, exactly if its key is new and the cache is full. */
  lemma KeepExactly(ops: seq<Op>, maxSize: nat, n: nat)
    requires maxSize >= 1 && n < |ops| && ops[n].Keep?
    ensures var d, e := At(ops, maxSize, n).entries, ops[n].entry;
            var d' := At(ops, maxSize, n + 1).entries;
            if BuildKey(e.slot) in d || |d| < maxSize then d' == d[BuildKey(e.slot) := e]
            else exists oldest ::
                   LeastRecent(ops, maxSize, n, oldest) && d' == (d - {oldest})[BuildKey(e.slot) := e]
  {
    RunFiled(ops, maxSize, n);
    var d := At(ops, maxSize, n);
    CountsAgree(d);
    if BuildKey(ops[n].entry.slot) !in d.entries && d.Size() >= maxSize {
      FirstIsLeastRecent(ops, maxSize, n);
    }
  }

  lemma {:induction false} ListCount(s: seq<string>, keys: set<string>)
    requires DistinctSeq(s) && forall k :: k in s <==> k in keys
    ensures |s| == |keys|
  {
    if s == [] {
      assert keys == {};
    } else {
      assert s[0] in s && s[0] !in s[1..];
      assert forall k :: k in s[1..] <==> k in s && k != s[0];
      ListCount(s[1..], keys - {s[0]});
    }
  }

  lemma CountsAgree(d: Cached)
    requires d.Valid()
    ensures |d.entries| == d.Size()
  {
    ListCount(d.order, d.entries.Keys);
    assert |d.entries| == |d.entries.Keys|;
  }

  /** What the cache holds under a key is what was last stored there. */
  lemma {:induction false} HeldIsLastKept(ops: seq<Op>, maxSize: nat, n: nat, key: string)
    requires maxSize >= 1 && n <= |ops| && key in At(ops, maxSize, n).entries
    ensures LastKept(ops, n, key) == Some(At(ops, maxSize, n).entries[key])
  {
    RunFiled(ops, maxSize, n - 1);
    HeldBefore(At(ops, maxSize, n - 1), maxSize, ops[n - 1], key);
    LastKeptNext(ops, n, key);
    if !Keeps(ops[n - 1], key) {
      HeldIsLastKept(ops, maxSize, n - 1, key);
    }
  }

  predicate Keeps(op: Op, key: string) {
    op.Keep? && BuildKey(op.entry.slot) == key
  }

  lemma LastKeptNext(ops: seq<Op>, n: nat, key: string)
    requires 0 < n <= |ops|
    ensures Keeps(ops[n - 1], key) ==> LastKept(ops, n, key) == Some(ops[n - 1].entry)
    ensures !Keeps(ops[n - 1], key) && !ops[n - 1].Empty? && (ops[n - 1].Drop? ==> BuildKey(ops[n - 1].slot) != key) ==>
              LastKept(ops, n, key) == LastKept(ops, n - 1, key)
  {
  }

  lemma HeldBefore(d: Cached, maxSize: nat, op: Op, key: string)
    requires Filed(d, maxSize) && maxSize >= 1 && key in Next(d, maxSize, op).entries
    ensures Keeps(op, key) ==> Next(d, maxSize, op).entries[key] == op.entry
    ensures !Keeps(op, key) ==>
              && key in d.entries && Next(d, maxSize, op).entries[key] == d.entries[key]
              && !op.Empty? && (op.Drop? ==> BuildKey(op.slot) != key)
  {
    if op.Keep? {
      StoreKeeps(d, maxSize, op.entry);
    }
  }

  /** A lookup finds the entry the cache holds exactly until its lifetime is over; then it removes it. */
  lemma LookExactly(ops: seq<Op>, maxSize: nat, n: nat)
    requires maxSize >= 1 && n < |ops| && ops[n].Look?
    ensures var d, key := At(ops, maxSize, n).entries, BuildKey(ops[n].slot);
            var d', hit := At(ops, maxSize, n + 1).entries, Fetched(At(ops, maxSize, n), key, ops[n].now).1;
            && (hit.Some? <==> key in d && ops[n].now - d[key].cachedAt <= d[key].ttl as real)
            && (hit.Some? ==> hit == LastKept(ops, n, key) && d' == d)
            && (hit.None? ==> d' == d - {key})
  {
    RunFiled(ops, maxSize, n);
    var key := BuildKey(ops[n].slot);
    if key in At(ops, maxSize, n).entries {
      HeldIsLastKept(ops, maxSize, n, key);
    }
  }

  // ---- how long an entry is found ----

  /** The keys used by the operations `i .. j-1`. */
  function UsedBetween(ops: seq<Op>, maxSize: nat, i: nat, j: nat): set<string>
    requires i <= j <= |ops|
  {
    if i == j then {} else UsedBetween(ops, maxSize, i, j - 1) + Used(At(ops, maxSize, j - 1), ops[j - 1])
  }

  lemma LastUseNext(ops: seq<Op>, maxSize: nat, j: nat, key: string, used: set<string>)
    requires 0 < j <= |ops| && used == Used(At(ops, maxSize, j - 1), ops[j - 1])
    ensures LastUse(ops, maxSize, j, key) == if key in used then j - 1 else LastUse(ops, maxSize, j - 1, key)
    ensures forall i: nat :: i < j ==>
              UsedBetween(ops, maxSize, i, j) == UsedBetween(ops, maxSize, i, j - 1) + used
  {
  }

  lemma {:induction false} UsedSince(ops: seq<Op>, maxSize: nat, i: nat, j: nat, key: string)
    requires i <= j <= |ops| && LastUse(ops, maxSize, j, key) >= i
    ensures key in UsedBetween(ops, maxSize, i, j)
  {
    var used := Used(At(ops, maxSize, j - 1), ops[j - 1]);
    LastUseNext(ops, maxSize, j, key, used);
    if key !in used {
      UsedSince(ops, maxSize, i, j - 1, key);
    }
  }

  lemma SubsetSmaller(a: set<string>, b: set<string>)
    requires a <= b
    ensures |a| <= |b|
  {
    assert b == a + (b - a);
  }

  lemma OtherWasUsed(ops: seq<Op>, maxSize: nat, n: nat, key: string, k: string)
    requires maxSize >= 1 && n <= |ops| && LeastRecent(ops, maxSize, n, key)
    requires k in At(ops, maxSize, n).entries && k != key
    ensures k in UsedBetween(ops, maxSize, LastUse(ops, maxSize, n, key) + 1, n)
  {
    UsedSince(ops, maxSize, LastUse(ops, maxSize, n, key) + 1, n, k);
  }

  lemma Exchanged(keys: set<string>, out: string, added: string)
    requires out in keys && added !in keys
    ensures |keys - {out} + {added}| == |keys|
  {
    assert |keys - {out}| == |keys| - 1;
  }

  lemma CountOthers(keys: set<string>, out: string, added: string, others: set<string>, n: nat)
    requires out in keys && added !in keys && |keys| >= n && keys - {out} + {added} <= others
    ensures |others| >= n
  {
    Exchanged(keys, out, added);
    SubsetSmaller(keys - {out} + {added}, others);
  }

  /** Operation `n` stores something else, and the entry under the key gives way to it. */
  ghost predicate Displaces(ops: seq<Op>, maxSize: nat, n: nat, key: string) {
    && maxSize >= 1 && n < |ops| && ops[n].Keep?
    && key in At(ops, maxSize, n).entries && key !in At(ops, maxSize, n + 1).entries
  }

  lemma DisplacedIsLeastRecent(ops: seq<Op>, maxSize: nat, n: nat, key: string)
    returns (i: int, added: string, keys: set<string>)
    requires Displaces(ops, maxSize, n, key)
    ensures LeastRecent(ops, maxSize, n, key) && i == LastUse(ops, maxSize, n, key) && i >= 0
    ensures added in Used(At(ops, maxSize, n), ops[n])
    ensures keys == At(ops, maxSize, n).entries.Keys && added !in keys && |keys| >= maxSize
  {
    RunFiled(ops, maxSize, n);
    OrderIsRecency(ops, maxSize, n);
    KeepExactly(ops, maxSize, n);
    i, added, keys := LastUse(ops, maxSize, n, key), BuildKey(ops[n].entry.slot), At(ops, maxSize, n).entries.Keys;
    assert key in At(ops, maxSize, n).order && UseAt(ops, maxSize, n)(key) == i;
  }

  /** Everything else held, and what displaces the entry, was used after it. */
  lemma OthersWereUsed(ops: seq<Op>, maxSize: nat, n: nat, key: string, i: int, added: string)
    requires maxSize >= 1 && n < |ops| && LeastRecent(ops, maxSize, n, key)
    requires i == LastUse(ops, maxSize, n, key) && added in Used(At(ops, maxSize, n), ops[n]) && added != key
    ensures At(ops, maxSize, n).entries.Keys - {key} + {added} <= UsedBetween(ops, maxSize, i + 1, n + 1) - {key}
  {
    forall k | k in At(ops, maxSize, n).entries.Keys && k != key ensures k in UsedBetween(ops, maxSize, i + 1, n) {
      OtherWasUsed(ops, maxSize, n, key, k);
    }
  }

  /** There are as many of those as the cache holds entries. */
  lemma ManyWereUsed(ops: seq<Op>, maxSize: nat, n: nat, key: string, i: int, added: string, keys: set<string>)
    requires maxSize >= 1 && n < |ops| && LeastRecent(ops, maxSize, n, key)
    requires i == LastUse(ops, maxSize, n, key) && added in Used(At(ops, maxSize, n), ops[n])
    requires keys == At(ops, maxSize, n).entries.Keys && added !in keys
    ensures i >= 0 ==> ManyUsed(ops, maxSize, i, n, key, |keys|)
  {
    OthersWereUsed(ops, maxSize, n, key, i, added);
    CountOthers(keys, key, added, UsedBetween(ops, maxSize, i + 1, n + 1) - {key}, |keys|);
  }

  /** At least `count` different other keys were used between two operations. */
  ghost predicate ManyUsed(ops: seq<Op>, maxSize: nat, i: int, n: nat, key: string, count: nat) {
    0 <= i <= n < |ops| && |UsedBetween(ops, maxSize, i + 1, n + 1) - {key}| >= count
  }

  lemma ManyEnough(ops: seq<Op>, maxSize: nat, i: int, n: nat, key: string, more: nat, count: nat)
    requires ManyUsed(ops, maxSize, i, n, key, more) && more >= count
    ensures ManyUsed(ops, maxSize, i, n, key, count)
  {
  }

  /** An entry gives way only after `maxSize` different other keys were used since its own last use. */
  lemma DisplacedNeedsOthers(ops: seq<Op>, maxSize: nat, n: nat, key: string)
    requires Displaces(ops, maxSize, n, key)
    ensures ManyUsed(ops, maxSize, LastUse(ops, maxSize, n, key), n, key, maxSize)
  {
    var i, added, keys := DisplacedIsLeastRecent(ops, maxSize, n, key);
    ManyWereUsed(ops, maxSize, n, key, i, added, keys);
    ManyEnough(ops, maxSize, i, n, key, |keys|, maxSize);
  }
}
