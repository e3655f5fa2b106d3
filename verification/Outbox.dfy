/**
 The durable outbox table and its replay pass
 (M1/modules/m1-ingestion/app/storage/outbox.py).
 */
module Outbox {
  import opened Results
  import opened Orders

  datatype Row = Row(id: string, topic: string, envelope: string, createdAt: real, attempts: int, lastError: string)

  predicate UniqueIds(rows: seq<Row>) {
    forall i, j :: 0 <= i < j < |rows| ==> rows[i].id != rows[j].id
  }

  predicate OlderOrSame(a: Row, b: Row) {
    a.createdAt <= b.createdAt
  }

  lemma AgeIsPreorder()
    ensures Preorder(OlderOrSame)
  {
  }

  /** `ORDER BY created_at ASC`. */
  function Oldest(rows: seq<Row>): seq<Row> {
    Sort(rows, OlderOrSame)
  }

  /** `... LIMIT limit`; SQLite reads a negative limit as no limit. */
  function PendingRows(rows: seq<Row>, limit: int): seq<Row> {
    if 0 <= limit <= |rows| then Oldest(rows)[..limit] else Oldest(rows)
  }

  lemma OldestAscend(rows: seq<Row>, i: nat, j: nat)
    requires i < j < |rows|
    ensures Oldest(rows)[i].createdAt <= Oldest(rows)[j].createdAt
  {
    AgeIsPreorder();
    SortSorts(rows, OlderOrSame);
    assert OlderOrSame(Oldest(rows)[i], Oldest(rows)[j]);
  }

  lemma Halves<T>(s: seq<T>, n: nat, r: T)
    requires n <= |s|
    ensures multiset(s) == multiset(s[..n]) + multiset(s[n..])
    ensures r in multiset(s) - multiset(s[..n]) ==> r in s[n..]
  {
    assert s == s[..n] + s[n..];
    assert r in multiset(s[n..]) ==> r in s[n..];
  }

  lemma PrefixWithin<T>(s: seq<T>, n: nat)
    requires n <= |s|
    ensures multiset(s[..n]) <= multiset(s)
  {
    assert s == s[..n] + s[n..];
  }

  lemma LeftOutIsNoOlder(rows: seq<Row>, n: nat, i: nat, r: Row)
    requires i < n <= |rows| && r in multiset(rows) - multiset(Oldest(rows)[..n])
    ensures Oldest(rows)[i].createdAt <= r.createdAt
  {
    var s := Oldest(rows);
    Halves(s, n, r);
    var k :| 0 <= k < |s[n..]| && s[n..][k] == r;
    OldestAscend(rows, i, n + k);
  }

  /** A pass lists table rows by ascending `created_at`, and leaves out none older than a listed one. */
  lemma PendingAreOldest(rows: seq<Row>, limit: int)
    ensures var p := PendingRows(rows, limit);
            && |p| == (if 0 <= limit <= |rows| then limit else |rows|) && multiset(p) <= multiset(rows)
            && (forall i, j :: 0 <= i < j < |p| ==> p[i].createdAt <= p[j].createdAt)
            && (forall r, i :: r in multiset(rows) - multiset(p) && 0 <= i < |p| ==> p[i].createdAt <= r.createdAt)
  {
    var n := if 0 <= limit <= |rows| then limit else |rows|;
    var p := PendingRows(rows, limit);
    assert p == Oldest(rows)[..n];
    PrefixWithin(Oldest(rows), n);
    forall i, j | 0 <= i < j < |p| ensures p[i].createdAt <= p[j].createdAt {
      OldestAscend(rows, i, j);
    }
    forall r, i | r in multiset(rows) - multiset(p) && 0 <= i < |p| ensures p[i].createdAt <= r.createdAt {
      LeftOutIsNoOlder(rows, n, i, r);
    }
  }

  function Ids(rows: seq<Row>): set<string> {
    set r | r in rows :: r.id
  }

  function NotIn(ids: set<string>): Row -> bool {
    (r: Row) => r.id !in ids
  }

  /** `DELETE ... WHERE raw_event_id IN ids`. */
  function Delete(rows: seq<Row>, ids: set<string>): seq<Row> {
    Filter(rows, NotIn(ids))
  }

  function Bump(r: Row, id: string, error: string): Row {
    if r.id == id then r.(attempts := r.attempts + 1, lastError := error) else r
  }

  function BumpAttempts(rows: seq<Row>, id: string, error: string): seq<Row> {
    Map(rows, (r: Row) => Bump(r, id, error))
  }

  /** How many of the first `n` publishes succeed before one fails. */
  function Successes(publishes: nat -> bool, n: nat): (c: nat)
    ensures c <= n && (forall k: nat :: k < c ==> publishes(k)) && (c < n ==> !publishes(c))
  {
    if n == 0 then 0
    else
      var c := Successes(publishes, n - 1);
      if c == n - 1 && publishes(n - 1) then n else c
  }

  lemma {:induction false} FilterUnique(rows: seq<Row>, p: Row -> bool)
    requires UniqueIds(rows)
    ensures UniqueIds(Filter(rows, p))
  {
    if rows != [] {
      FilterUnique(rows[1..], p);
      FilterMembers(rows[1..], p);
      var rest := Filter(rows[1..], p);
      forall i | 0 <= i < |rest| ensures rest[i].id != rows[0].id {
        assert rest[i] in rows[1..];
      }
    }
  }

  lemma DeleteMore(rows: seq<Row>, ids: set<string>, id: string)
    ensures Delete(Delete(rows, ids), {id}) == Delete(rows, ids + {id})
  {
    FilterTwice(rows, NotIn(ids), NotIn({id}), NotIn(ids + {id}));
  }

  lemma DeleteNothing(rows: seq<Row>)
    ensures Delete(rows, {}) == rows
  {
    FilterAll(rows, NotIn({}));
  }

  /** The table once the first `c` of the listed rows are gone. */
  function Left(rows: seq<Row>, listed: seq<Row>, c: nat): seq<Row>
    requires c <= |listed|
  {
    Delete(rows, Ids(listed[..c]))
  }

  lemma LeftStep(rows: seq<Row>, listed: seq<Row>, c: nat)
    requires c < |listed|
    ensures Delete(Left(rows, listed, c), {listed[c].id}) == Left(rows, listed, c + 1)
  {
    DeleteMore(rows, Ids(listed[..c]), listed[c].id);
    assert listed[..c + 1] == listed[..c] + [listed[c]];
    assert Ids(listed[..c + 1]) == Ids(listed[..c]) + {listed[c].id};
  }

  lemma LeftAtStart(rows: seq<Row>, listed: seq<Row>)
    ensures Left(rows, listed, 0) == rows
  {
    assert Ids(listed[..0]) == {};
    DeleteNothing(rows);
  }

  lemma {:induction false} SuccessesStop(publishes: nat -> bool, n: nat, c: nat)
    requires c <= n && (forall k: nat :: k < c ==> publishes(k)) && (c < n ==> !publishes(c))
    ensures Successes(publishes, n) == c
  {
    var s := Successes(publishes, n);
  }

  /** What the failing call of a pass did all the same, and whether recording the attempt raises. */
  datatype PassFault = PassFault(delivered: bool, removed: bool, recordFails: bool)

  function Works(publishes: nat -> bool, marks: nat -> bool): nat -> bool {
    (k: nat) => publishes(k) && marks(k)
  }

  /** What a pass that handled `done` rows published: those, and the failing one if it got through. */
  function Logged(pending: seq<Row>, publishes: nat -> bool, f: PassFault, done: nat): seq<Row>
    requires done <= |pending|
  {
    pending[..done] + if done < |pending| && (publishes(done) || f.delivered) then [pending[done]] else []
  }

  /** The table after the pass stopped at row `done`. */
  function StoppedAt(
      rows: seq<Row>, pending: seq<Row>, published: bool, f: PassFault, error: string, done: nat): seq<Row>
    requires done < |pending|
  {
    var left := Left(rows, pending, done + if published && f.removed then 1 else 0);
    if f.recordFails then left else BumpAttempts(left, pending[done].id, error)
  }

  function Remaining(
      rows: seq<Row>, pending: seq<Row>, publishes: nat -> bool, f: PassFault, error: string, done: nat): seq<Row>
    requires done <= |pending|
  {
    if done == |pending| then Left(rows, pending, done) else StoppedAt(rows, pending, publishes(done), f, error, done)
  }

  /** A pass publishes the rows it counts, or one more, and removes no row it did not publish. */
  lemma PublishedCoversRemoved(
      rows: seq<Row>, pending: seq<Row>, publishes: nat -> bool, f: PassFault, error: string, done: nat)
    requires done <= |pending|
    ensures var logged := Logged(pending, publishes, f, done);
            && logged <= pending && done <= |logged| <= done + 1
            && Ids(rows) - Ids(logged) <= Ids(Remaining(rows, pending, publishes, f, error, done))
  {
    var logged := Logged(pending, publishes, f, done);
    var gone := if done < |pending| && publishes(done) && f.removed then done + 1 else done;
    if done < |pending| {
      assert pending[..done + 1] == pending[..done] + [pending[done]];
    } else {
      assert pending[..done] == pending;
    }
    assert Ids(pending[..gone]) <= Ids(logged);
    var left := Left(rows, pending, gone);
    forall r | r in rows && r.id !in Ids(logged)
      ensures r.id in Ids(Remaining(rows, pending, publishes, f, error, done))
    {
      FilterMembers(rows, NotIn(Ids(pending[..gone])));
      assert r in left;
      if done < |pending| {
        BumpKeepsIds(left, pending[done].id, error, r);
      }
    }
  }

  /** What becomes of a row: it is gone, has one attempt more, or is as it was. */
  function Fate(r: Row, gone: set<string>, stoppedAt: Option<string>, error: string): Option<Row> {
    if r.id in gone then None
    else if stoppedAt == Some(r.id) then Some(r.(attempts := r.attempts + 1, lastError := error))
    else Some(r)
  }

  /** A pass removes the handled rows, counts a failed attempt on the row it stops at, and alters no other. */
  lemma RemainingExactly(
      rows: seq<Row>, pending: seq<Row>, publishes: nat -> bool, f: PassFault, error: string, done: nat, x: Row)
    requires done <= |pending|
    ensures var stops := done < |pending|;
            var gone := pending[..if stops && publishes(done) && f.removed then done + 1 else done];
            x in Remaining(rows, pending, publishes, f, error, done) <==>
            exists r :: r in rows &&
              Fate(r, set g | g in gone :: g.id,
                   if stops && !f.recordFails then Some(pending[done].id) else None, error) == Some(x)
  {
    var stops := done < |pending|;
    var gone := pending[..if stops && publishes(done) && f.removed then done + 1 else done];
    var left := Delete(rows, Ids(gone));
    FilterMembers(rows, NotIn(Ids(gone)));
    if stops && !f.recordFails {
      BumpedMembers(left, pending[done].id, error, x);
    }
  }

  lemma BumpedMembers(rows: seq<Row>, id: string, error: string, x: Row)
    ensures x in BumpAttempts(rows, id, error) <==>
            exists r :: r in rows &&
              x == if r.id == id then r.(attempts := r.attempts + 1, lastError := error) else r
  {
    var after := BumpAttempts(rows, id, error);
    if x in after {
      var i :| 0 <= i < |after| && after[i] == x;
      assert rows[i] in rows;
    }
    if r :| r in rows && x == if r.id == id then r.(attempts := r.attempts + 1, lastError := error) else r {
      var i :| 0 <= i < |rows| && rows[i] == r;
      assert after[i] in after;
    }
  }

  lemma BumpKeepsIds(rows: seq<Row>, id: string, error: string, r: Row)
    requires r in rows
    ensures r.id in Ids(rows) && r.id in Ids(BumpAttempts(rows, id, error))
  {
    var i :| 0 <= i < |rows| && rows[i] == r;
    assert BumpAttempts(rows, id, error)[i] in BumpAttempts(rows, id, error);
  }

  class Broker {
    var log: seq<Row>

    constructor ()
      ensures log == []
    {
      log := [];
    }
  }

  class DurableOutbox {
    var rows: seq<Row>

    predicate Valid()
      reads this
    {
      UniqueIds(rows)
    }

    constructor ()
      ensures Valid() && rows == []
    {
      rows := [];
    }

    /** `INSERT OR REPLACE`: a spooled envelope starts afresh with no attempts. */
    method Spool(id: string, topic: string, envelope: string, now: real, error: string)
      requires Valid()
      modifies this
      ensures Valid()
      ensures rows == Delete(old(rows), {id}) + [Row(id, topic, envelope, now, 0, error)]
    {
      FilterUnique(rows, NotIn({id}));
      FilterMembers(rows, NotIn({id}));
      var others := Delete(rows, {id});
      assert forall i :: 0 <= i < |others| ==> others[i] in others;
      rows := others + [Row(id, topic, envelope, now, 0, error)];
    }

    method MarkPublished(id: string)
      requires Valid()
      modifies this
      ensures Valid() && rows == Delete(old(rows), {id})
      ensures forall r :: r in rows <==> r in old(rows) && r.id != id
    {
      FilterMembers(rows, NotIn({id}));
      FilterUnique(rows, NotIn({id}));
      rows := Delete(rows, {id});
    }

    method RecordAttempt(id: string, error: string)
      requires Valid()
      modifies this
      ensures Valid() && rows == BumpAttempts(old(rows), id, error)
      ensures |rows| == |old(rows)| && forall i | 0 <= i < |rows| ::
                if old(rows)[i].id != id then rows[i] == old(rows)[i]
                else rows[i] == old(rows)[i].(attempts := old(rows)[i].attempts + 1, lastError := error)
    {
      rows := BumpAttempts(rows, id, error);
    }

    /**
     One replay pass. `publishes(k)` and `marks(k)` say whether the k-th publish
     and the k-th delete go through; the pass stops at the first that raises,
     which may have taken effect all the same. It removes `count` oldest rows,
     publishing as many, or one more if the failing row was published or
     removed; `None` where recording the failed attempt raises, too.
     */
    method ReplayPending(
        broker: Broker, limit: int, publishes: nat -> bool, marks: nat -> bool, f: PassFault, error: string)
      returns (count: Option<nat>)
      requires Valid()
      modifies this, broker
      ensures Valid()
      ensures var pending := PendingRows(old(rows), limit);
        var done := Successes(Works(publishes, marks), |pending|);
        && (count == if done < |pending| && f.recordFails then None else Some(done))
        && broker.log == old(broker.log) + Logged(pending, publishes, f, done)
        && rows == Remaining(old(rows), pending, publishes, f, error, done)
    {
      var pending := PendingRows(rows, limit);
      ghost var before := rows;
      var done := ReplayRows(broker, pending, publishes, marks);
      if done < |pending| {
        StopAt(broker, pending, publishes(done), f, error, done, before);
      }
      count := if done < |pending| && f.recordFails then None else Some(done);
    }

    /** The pass stops at a row whose publish or delete raised. */
    method StopAt(
        broker: Broker, pending: seq<Row>, published: bool, f: PassFault, error: string, done: nat,
        ghost before: seq<Row>)
      requires Valid() && done < |pending| && rows == Left(before, pending, done)
      modifies this, broker
      ensures Valid()
      ensures broker.log == old(broker.log) + if published || f.delivered then [pending[done]] else []
      ensures rows == StoppedAt(before, pending, published, f, error, done)
    {
      if published || f.delivered {
        broker.log := broker.log + [pending[done]];
      }
      if published && f.removed {
        MarkPublished(pending[done].id);
        LeftStep(before, pending, done);
      }
      if !f.recordFails {
        RecordAttempt(pending[done].id, error);
      }
    }

    /** The loop: publish and remove rows until something raises. */
    method ReplayRows(broker: Broker, pending: seq<Row>, publishes: nat -> bool, marks: nat -> bool) returns (done: nat)
      requires Valid()
      modifies this, broker
      ensures Valid()
      ensures done == Successes(Works(publishes, marks), |pending|)
      ensures broker.log == old(broker.log) + pending[..done] && rows == Left(old(rows), pending, done)
    {
      done := 0;
      LeftAtStart(rows, pending);
      while done < |pending| && publishes(done) && marks(done)
        invariant 0 <= done <= |pending| && Valid()
        invariant forall k: nat :: k < done ==> Works(publishes, marks)(k)
        invariant broker.log == old(broker.log) + pending[..done]
        invariant rows == Left(old(rows), pending, done)
      {
        assert pending[..done + 1] == pending[..done] + [pending[done]];
        broker.log := broker.log + [pending[done]];
        MarkPublished(pending[done].id);
        LeftStep(old(rows), pending, done);
        done := done + 1;
      }
      SuccessesStop(Works(publishes, marks), |pending|, done);
    }
  }

  // ---- draining ----

  lemma OldestUnique(rows: seq<Row>, i: nat, j: nat)
    requires UniqueIds(rows) && i < j < |rows|
    ensures Oldest(rows)[i].id != Oldest(rows)[j].id
  {
    var s := Oldest(rows);
    if s[i].id == s[j].id {
      SortMembers(rows, OlderOrSame);
      assert s[i] in rows && s[j] in rows;
      RepeatedTwice(s, i, j);
      SeenOnce(rows, s[i]);
    }
  }

  lemma {:induction false} SeenOnce(rows: seq<Row>, r: Row)
    requires UniqueIds(rows)
    ensures multiset(rows)[r] <= 1
  {
    if rows != [] {
      SeenOnce(rows[1..], r);
      assert rows == [rows[0]] + rows[1..];
      assert multiset(rows) == multiset{rows[0]} + multiset(rows[1..]);
      if r == rows[0] {
        assert r !in rows[1..];
      }
    }
  }

  lemma YoungerKept(rows: seq<Row>, c: nat, j: nat)
    requires UniqueIds(rows) && c <= j < |rows|
    ensures Oldest(rows)[j].id !in Ids(Oldest(rows)[..c])
  {
    var s := Oldest(rows);
    if s[j].id in Ids(s[..c]) {
      var q :| q in s[..c] && q.id == s[j].id;
      var i :| 0 <= i < c && s[i] == q;
      OldestUnique(rows, i, j);
    }
  }

  lemma SplitFilter(s: seq<Row>, c: nat, p: Row -> bool)
    requires c <= |s|
    requires forall i :: 0 <= i < c ==> !p(s[i])
    requires forall i :: c <= i < |s| ==> p(s[i])
    ensures Filter(s, p) == s[c..]
  {
    assert s == s[..c] + s[c..];
    FilterAppend(s[..c], s[c..], p);
    FilterNone(s[..c], p);
    FilterAll(s[c..], p);
  }

  /** Removing the oldest rows leaves the others in the same order. */
  lemma RestInOrder(rows: seq<Row>, c: nat)
    requires UniqueIds(rows) && c <= |rows|
    ensures Oldest(Delete(rows, Ids(Oldest(rows)[..c]))) == Oldest(rows)[c..]
  {
    var s := Oldest(rows);
    var p := NotIn(Ids(s[..c]));
    AgeIsPreorder();
    SortFilter(rows, OlderOrSame, p);
    forall i | 0 <= i < c ensures !p(s[i]) {
      assert s[i] in s[..c];
    }
    forall i | c <= i < |s| ensures p(s[i]) {
      YoungerKept(rows, c, i);
    }
    SplitFilter(s, c, p);
  }

  /** The table after a pass whose publishes all succeed. */
  function Pass(rows: seq<Row>, limit: nat): seq<Row> {
    Delete(rows, Ids(PendingRows(rows, limit)))
  }

  /** What `ReplayPending` leaves when every publish and delete works. */
  lemma WorkingPass(rows: seq<Row>, limit: nat, publishes: nat -> bool, marks: nat -> bool)
    requires forall k: nat :: publishes(k) && marks(k)
    ensures var pending := PendingRows(rows, limit);
            var count := Successes(Works(publishes, marks), |pending|);
            count == |pending| && pending[..count] == pending && Left(rows, pending, count) == Pass(rows, limit)
  {
    var pending := PendingRows(rows, limit);
    assert pending[..|pending|] == pending;
  }

  function PassBy(limit: nat): seq<Row> -> seq<Row> {
    (rows: seq<Row>) => Pass(rows, limit)
  }

  function TakeBy(limit: nat): seq<Row> -> seq<Row> {
    (rows: seq<Row>) => PendingRows(rows, limit)
  }

  /** `k` passes in a row: what is left, and what was published on the way. */
  function Repeat(pass: seq<Row> -> seq<Row>, rows: seq<Row>, k: nat): seq<Row>
    decreases k
  {
    if k == 0 then rows else Repeat(pass, pass(rows), k - 1)
  }

  function Published(pass: seq<Row> -> seq<Row>, take: seq<Row> -> seq<Row>, rows: seq<Row>, k: nat): seq<Row>
    decreases k
  {
    if k == 0 then [] else take(rows) + Published(pass, take, pass(rows), k - 1)
  }

  /** The table after `k` passes whose publishes all succeed. */
  function Passes(rows: seq<Row>, limit: nat, k: nat): seq<Row> {
    Repeat(PassBy(limit), rows, k)
  }

  /** What those passes publish, in order. */
  function Replayed(rows: seq<Row>, limit: nat, k: nat): seq<Row> {
    Published(PassBy(limit), TakeBy(limit), rows, k)
  }

  function Min(a: int, b: int): int {
    if a <= b then a else b
  }

  lemma PendingOldest(rows: seq<Row>, limit: nat)
    ensures PendingRows(rows, limit) == Oldest(rows)[..Min(limit, |rows|)]
  {
  }

  lemma PassUnique(rows: seq<Row>, limit: nat)
    requires UniqueIds(rows)
    ensures UniqueIds(Pass(rows, limit))
  {
    FilterUnique(rows, NotIn(Ids(PendingRows(rows, limit))));
  }

  lemma PassLeaves(rows: seq<Row>, limit: nat)
    requires UniqueIds(rows)
    ensures Oldest(Pass(rows, limit)) == Oldest(rows)[Min(limit, |rows|)..]
  {
    PendingOldest(rows, limit);
    RestInOrder(rows, Min(limit, |rows|));
  }

  /** A pass publishes the oldest rows and leaves the rest in order. */
  lemma PassSplits(rows: seq<Row>, limit: nat)
    requires UniqueIds(rows)
    ensures Oldest(rows) == PendingRows(rows, limit) + Oldest(Pass(rows, limit))
    ensures |Pass(rows, limit)| == |rows| - Min(limit, |rows|)
  {
    PassLeaves(rows, limit);
    PendingOldest(rows, limit);
    assert |Pass(rows, limit)| == |Oldest(Pass(rows, limit))|;
  }

  lemma {:induction false} RepeatSplits(
      pass: seq<Row> -> seq<Row>, take: seq<Row> -> seq<Row>, sort: seq<Row> -> seq<Row>, rows: seq<Row>, k: nat)
    requires UniqueIds(rows)
    requires forall r {:trigger pass(r)} :: UniqueIds(r) ==> UniqueIds(pass(r)) && sort(r) == take(r) + sort(pass(r))
    ensures sort(rows) == Published(pass, take, rows, k) + sort(Repeat(pass, rows, k))
    decreases k
  {
    if k > 0 {
      RepeatSplits(pass, take, sort, pass(rows), k - 1);
    }
  }

  /** `k * n`, as a sum. */
  function Times(k: nat, n: nat): nat {
    if k == 0 then 0 else Times(k - 1, n) + n
  }

  lemma {:induction false} TimesIsProduct(k: nat, n: nat)
    ensures Times(k, n) == k * n
  {
    if k > 0 {
      TimesIsProduct(k - 1, n);
      assert k * n == (k - 1) * n + n;
    }
  }

  lemma {:induction false} RepeatShrinks(pass: seq<Row> -> seq<Row>, limit: nat, rows: seq<Row>, k: nat)
    requires UniqueIds(rows)
    requires forall r {:trigger pass(r)} :: UniqueIds(r) ==> UniqueIds(pass(r)) && |pass(r)| == |r| - Min(limit, |r|)
    ensures |Repeat(pass, rows, k)| == |rows| - Min(Times(k, limit), |rows|)
    decreases k
  {
    if k > 0 {
      RepeatShrinks(pass, limit, pass(rows), k - 1);
    }
  }

  lemma PassesShrink(rows: seq<Row>, limit: nat, k: nat)
    requires UniqueIds(rows)
    ensures |Passes(rows, limit, k)| == |rows| - Min(k * limit, |rows|)
  {
    forall r | UniqueIds(r)
      ensures UniqueIds(PassBy(limit)(r)) && |PassBy(limit)(r)| == |r| - Min(limit, |r|)
    {
      PassSplits(r, limit);
      PassUnique(r, limit);
    }
    RepeatShrinks(PassBy(limit), limit, rows, k);
    TimesIsProduct(k, limit);
  }

  lemma PassesSplit(rows: seq<Row>, limit: nat, k: nat)
    requires UniqueIds(rows)
    ensures Oldest(rows) == Replayed(rows, limit, k) + Oldest(Passes(rows, limit, k))
  {
    forall r | UniqueIds(r)
      ensures UniqueIds(PassBy(limit)(r)) && Oldest(r) == TakeBy(limit)(r) + Oldest(PassBy(limit)(r))
    {
      PassSplits(r, limit);
      PassUnique(r, limit);
    }
    RepeatSplits(PassBy(limit), TakeBy(limit), Oldest, rows, k);
  }

  /** However many passes run, rows are published by ascending `created_at`. */
  lemma ReplayedInOrder(rows: seq<Row>, limit: nat, k: nat)
    requires UniqueIds(rows)
    ensures var r := Replayed(rows, limit, k); forall i, j :: 0 <= i < j < |r| ==> r[i].createdAt <= r[j].createdAt
  {
    PassesSplit(rows, limit, k);
    var r := Replayed(rows, limit, k);
    forall i, j | 0 <= i < j < |r| ensures r[i].createdAt <= r[j].createdAt {
      assert r[i] == Oldest(rows)[i] && r[j] == Oldest(rows)[j];
      OldestAscend(rows, i, j);
    }
  }

  /** With working publishes n rows drain in ceil(n / limit) passes, oldest first, and in no fewer. */
  lemma DrainsInOrder(rows: seq<Row>, limit: nat, k: nat)
    requires UniqueIds(rows) && limit >= 1
    ensures Passes(rows, limit, k) == [] <==> k >= (|rows| + limit - 1) / limit
    ensures Passes(rows, limit, k) == [] ==> Replayed(rows, limit, k) == Oldest(rows)
    ensures var r := Replayed(rows, limit, k); forall i, j :: 0 <= i < j < |r| ==> r[i].createdAt <= r[j].createdAt
  {
    PassesShrink(rows, limit, k);
    CeilingDivision(|rows|, limit, k);
    PassesSplit(rows, limit, k);
    ReplayedInOrder(rows, limit, k);
  }

  lemma {:induction false} ProductGrows(a: nat, b: nat, limit: nat)
    requires a < b
    ensures a * limit + limit <= b * limit
  {
    assert b * limit == (b - 1) * limit + limit;
    if a + 1 < b {
      ProductGrows(a, b - 1, limit);
    }
  }

  lemma CeilingDivision(n: nat, limit: nat, k: nat)
    requires limit >= 1
    ensures k * limit >= n <==> k >= (n + limit - 1) / limit
  {
    var q := (n + limit - 1) / limit;
    assert q * limit <= n + limit - 1 < q * limit + limit;
    if k < q {
      ProductGrows(k, q, limit);
    } else if k > q {
      ProductGrows(q, k, limit);
    }
  }
}
