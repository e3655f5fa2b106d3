/**
 One replay pass over the outbox table (M1/modules/m1-ingestion/app/storage/outbox.py)
 as an undisturbed run of the dual-write protocol.
 */
module ReplayPipeline {
  import Orders
  import opened Outbox
  import opened OutboxProtocol

  function RowIds(rows: seq<Row>): (ids: seq<Id>)
    ensures |ids| == |rows| && forall i :: 0 <= i < |rows| ==> ids[i] == rows[i].id
  {
    seq(|rows|, i requires 0 <= i < |rows| => rows[i].id)
  }

  function SetOf(ids: seq<Id>): set<Id> {
    set id | id in ids
  }

  lemma IdsOfRows(rows: seq<Row>)
    ensures SetOf(RowIds(rows)) == Ids(rows)
  {
    forall id | id in Ids(rows) ensures id in RowIds(rows) {
      var i :| 0 <= i < |rows| && rows[i].id == id;
      assert RowIds(rows)[i] == id;
    }
  }

  // ---- the steps of a pass ----

  /** `n` rows published and removed. */
  function Handled(w: nat, n: nat): seq<Step> {
    if n == 0 then [] else [ReplayPublishOk(w), ReplayMarkOk(w)] + Handled(w, n - 1)
  }

  /** What happens at the row at which the pass stops. */
  function Stops(w: nat, published: bool, f: PassFault): seq<Step> {
    if published then [ReplayPublishOk(w), ReplayMarkFails(w, f.removed)] else [ReplayPublishFails(w, f.delivered)]
  }

  function PassTrace(w: nat, pending: seq<Row>, publishes: nat -> bool, f: PassFault, done: nat): seq<Step>
    requires done <= |pending|
  {
    [ReplayStarts(w, RowIds(pending))]
    + (Handled(w, done) + if done == |pending| then [] else Stops(w, publishes(done), f))
  }

  /** The system after the first `n` rows of a worker's list are handled. */
  function AfterRows(s: System, w: nat, todo: seq<Id>, n: nat): System
    requires n <= |todo|
  {
    s.(published := s.published + SetOf(todo[..n]), outbox := s.outbox - SetOf(todo[..n]),
       replays := s.replays[w := Replay(todo[n..], false)])
  }

  /** One row published and removed. */
  lemma RowHandled(s: System, w: nat, todo: seq<Id>, rest: seq<Step>, s': System)
    requires w in s.replays && s.replays[w] == Replay(todo, false) && todo != []
    requires Leads(AfterRows(s, w, todo, 1), rest, s')
    ensures Leads(s, [ReplayPublishOk(w), ReplayMarkOk(w)] + rest, s')
  {
    var a, b := ReplayPublishOk(w), ReplayMarkOk(w);
    var s1 := Next(s, a);
    var s2 := Next(s1, b);
    assert SetOf(todo[..1]) == {todo[0]};
    assert s2.replays == AfterRows(s, w, todo, 1).replays;
    assert s2 == AfterRows(s, w, todo, 1);
    assert ([b] + rest)[1..] == rest;
    assert Leads(s1, [b] + rest, s');
    assert ([a, b] + rest)[1..] == [b] + rest;
  }

  lemma AfterRowsNext(s: System, w: nat, todo: seq<Id>, n: nat)
    requires 0 < n <= |todo|
    ensures AfterRows(AfterRows(s, w, todo, 1), w, todo[1..], n - 1) == AfterRows(s, w, todo, n)
  {
    assert todo[..n] == todo[..1] + todo[1..][..n - 1];
    assert todo[1..][n - 1..] == todo[n..];
    assert SetOf(todo[..n]) == SetOf(todo[..1]) + SetOf(todo[1..][..n - 1]);
  }

  lemma NoRowHandled(s: System, w: nat, todo: seq<Id>, rest: seq<Step>)
    requires w in s.replays && s.replays[w] == Replay(todo, false)
    ensures AfterRows(s, w, todo, 0) == s && Handled(w, 0) + rest == rest
  {
    assert s.replays[w := Replay(todo[0..], false)] == s.replays && SetOf(todo[..0]) == {};
  }

  lemma HandledNext(w: nat, n: nat, rest: seq<Step>)
    requires n > 0
    ensures Handled(w, n) + rest == [ReplayPublishOk(w), ReplayMarkOk(w)] + (Handled(w, n - 1) + rest)
  {
  }

  lemma AtRows(s: System, w: nat, todo: seq<Id>)
    requires todo != []
    ensures var t := AfterRows(s, w, todo, 1); w in t.replays && t.replays[w] == Replay(todo[1..], false)
  {
  }

  lemma {:induction false} RowsHandled(
      s: System, w: nat, todo: seq<Id>, n: nat, end: System, rest: seq<Step>, s': System)
    requires w in s.replays && s.replays[w] == Replay(todo, false) && n <= |todo|
    requires end == AfterRows(s, w, todo, n) && Leads(end, rest, s')
    ensures Leads(s, Handled(w, n) + rest, s')
    decreases n
  {
    if n == 0 {
      NoRowHandled(s, w, todo, rest);
    } else {
      AfterRowsNext(s, w, todo, n);
      AtRows(s, w, todo);
      RowsHandled(AfterRows(s, w, todo, 1), w, todo[1..], n - 1, end, rest, s');
      RowHandled(s, w, todo, Handled(w, n - 1) + rest, s');
      HandledNext(w, n, rest);
    }
  }

  /** The system after the pass stopped at the head of a worker's list. */
  function AfterStop(s: System, w: nat, head: Id, published: bool, f: PassFault): System {
    s.(published := if published || f.delivered then s.published + {head} else s.published,
       outbox := if published && f.removed then s.outbox - {head} else s.outbox,
       replays := s.replays - {w})
  }

  lemma StopLeads(s: System, w: nat, todo: seq<Id>, published: bool, f: PassFault)
    requires w in s.replays && s.replays[w] == Replay(todo, false) && todo != []
    ensures Leads(s, Stops(w, published, f), AfterStop(s, w, todo[0], published, f))
  {
    if published {
      var a, b := ReplayPublishOk(w), ReplayMarkFails(w, f.removed);
      var s1 := Next(s, a);
      assert s1.replays[w].todo == todo;
      assert Next(s1, b).replays == s.replays - {w};
      assert [a, b][1..] == [b] && [b][1..] == [];
      assert Leads(s1, [b], Next(s1, b));
    } else {
      assert [ReplayPublishFails(w, f.delivered)][1..] == [];
    }
  }

  // ---- the pass on the table is the pass of the protocol ----

  lemma DeletedIds(rows: seq<Row>, ids: set<string>)
    ensures Ids(Delete(rows, ids)) == Ids(rows) - ids
  {
    DeletedMembers(rows, ids);
  }

  lemma DeletedMembers(rows: seq<Row>, ids: set<string>)
    ensures forall r :: r in Delete(rows, ids) <==> r in rows && r.id !in ids
  {
    Orders.FilterMembers(rows, NotIn(ids));
  }

  lemma BumpedIds(rows: seq<Row>, id: string, error: string)
    ensures Ids(BumpAttempts(rows, id, error)) == Ids(rows)
  {
    var after := BumpAttempts(rows, id, error);
    assert |after| == |rows| && forall i :: 0 <= i < |rows| ==> after[i].id == rows[i].id;
    forall x | x in Ids(rows) ensures x in Ids(after) {
      var i :| 0 <= i < |rows| && rows[i].id == x;
      assert after[i] in after;
    }
    forall x | x in Ids(after) ensures x in Ids(rows) {
      var i :| 0 <= i < |after| && after[i].id == x;
      assert rows[i] in rows;
    }
  }

  /** The ids of the table after a pass. */
  lemma RemainingIds(
      rows: seq<Row>, pending: seq<Row>, publishes: nat -> bool, f: PassFault, error: string, done: nat)
    requires done <= |pending|
    ensures var gone := if done < |pending| && publishes(done) && f.removed then done + 1 else done;
            Ids(Remaining(rows, pending, publishes, f, error, done)) == Ids(rows) - Ids(pending[..gone])
  {
    var gone := if done < |pending| && publishes(done) && f.removed then done + 1 else done;
    DeletedIds(rows, Ids(pending[..gone]));
    if done < |pending| {
      BumpedIds(Left(rows, pending, gone), pending[done].id, error);
    }
  }

  /** What a pass does to the system, in terms of the table's rows. */
  function AfterPass(
      s: System, w: nat, rows: seq<Row>, pending: seq<Row>, publishes: nat -> bool, f: PassFault, error: string,
      done: nat): System
    requires done <= |pending|
  {
    s.(published := s.published + Ids(Logged(pending, publishes, f, done)),
       outbox := Ids(Remaining(rows, pending, publishes, f, error, done)),
       replays := if done == |pending| then s.replays[w := Replay([], false)] else s.replays)
  }

  lemma PrefixIds(pending: seq<Row>, n: nat)
    requires n <= |pending|
    ensures SetOf(RowIds(pending)[..n]) == Ids(pending[..n])
  {
    assert RowIds(pending)[..n] == RowIds(pending[..n]);
    IdsOfRows(pending[..n]);
  }

  lemma FullPassEnds(
      s: System, w: nat, rows: seq<Row>, pending: seq<Row>, publishes: nat -> bool, f: PassFault, error: string)
    requires w !in s.replays && s.outbox == Ids(rows)
    ensures AfterRows(s, w, RowIds(pending), |pending|) ==
            AfterPass(s, w, rows, pending, publishes, f, error, |pending|)
  {
    var n := |pending|;
    PrefixIds(pending, n);
    RemainingIds(rows, pending, publishes, f, error, n);
    assert pending[..n] + [] == pending[..n];
    assert RowIds(pending)[n..] == [];
  }

  lemma StoppedPassEnds(
      s: System, w: nat, rows: seq<Row>, pending: seq<Row>, publishes: nat -> bool, f: PassFault, error: string,
      done: nat)
    requires w !in s.replays && s.outbox == Ids(rows) && done < |pending|
    ensures AfterStop(AfterRows(s, w, RowIds(pending), done), w, pending[done].id, publishes(done), f) ==
            AfterPass(s, w, rows, pending, publishes, f, error, done)
  {
    PrefixIds(pending, done);
    RemainingIds(rows, pending, publishes, f, error, done);
    assert pending[..done + 1] == pending[..done] + [pending[done]];
    assert Ids(pending[..done + 1]) == Ids(pending[..done]) + {pending[done].id};
    assert pending[..done] + [] == pending[..done];
    assert s.replays[w := Replay(RowIds(pending)[done..], false)] - {w} == s.replays;
  }

  /**
   `ReplayPending` on a table is a run of the protocol's replay steps: with the
   table's rows as the outbox, it leads to what it logged and what it left.
   */
  lemma PassIsRun(
      s: System, w: nat, rows: seq<Row>, limit: int, publishes: nat -> bool, marks: nat -> bool, f: PassFault,
      error: string)
    requires w !in s.replays && s.outbox == Ids(rows)
    ensures var pending := PendingRows(rows, limit);
            var done := Successes(Works(publishes, marks), |pending|);
            Leads(s, PassTrace(w, pending, publishes, f, done),
                  AfterPass(s, w, rows, pending, publishes, f, error, done))
  {
    var pending := PendingRows(rows, limit);
    var done := Successes(Works(publishes, marks), |pending|);
    PendingAreRows(rows, limit);
    PassLeads(s, w, rows, pending, publishes, f, error, done);
  }

  lemma PendingAreRows(rows: seq<Row>, limit: int)
    ensures forall r :: r in PendingRows(rows, limit) ==> r in rows
  {
    Orders.SortMembers(rows, OlderOrSame);
  }

  lemma PassLeads(
      s: System, w: nat, rows: seq<Row>, pending: seq<Row>, publishes: nat -> bool, f: PassFault, error: string,
      done: nat)
    requires w !in s.replays && s.outbox == Ids(rows) && done <= |pending| && forall r :: r in pending ==> r in rows
    ensures Leads(s, PassTrace(w, pending, publishes, f, done),
                  AfterPass(s, w, rows, pending, publishes, f, error, done))
  {
    var ids := RowIds(pending);
    var first := ReplayStarts(w, ids);
    assert Enabled(s, first) by {
      forall id | id in ids ensures id in s.outbox {
        var i :| 0 <= i < |ids| && ids[i] == id;
        assert pending[i] in rows;
      }
    }
    var s1 := Next(s, first);
    var tail := if done == |pending| then [] else Stops(w, publishes(done), f);
    var end := AfterPass(s, w, rows, pending, publishes, f, error, done);
    FromStart(s, w, ids, done);
    if done == |pending| {
      FullPassEnds(s, w, rows, pending, publishes, f, error);
    } else {
      StopLeads(AfterRows(s1, w, ids, done), w, ids[done..], publishes(done), f);
      StoppedPassEnds(s, w, rows, pending, publishes, f, error, done);
    }
    RowsHandled(s1, w, ids, done, AfterRows(s1, w, ids, done), tail, end);
    assert ([first] + (Handled(w, done) + tail))[1..] == Handled(w, done) + tail;
  }

  lemma FromStart(s: System, w: nat, ids: seq<Id>, n: nat)
    requires n <= |ids| && w !in s.replays && forall id :: id in ids ==> id in s.outbox
    ensures AfterRows(Next(s, ReplayStarts(w, ids)), w, ids, n) == AfterRows(s, w, ids, n)
  {
    var last := Replay(ids[n..], false);
    assert s.replays[w := Replay(ids, false)][w := last] == s.replays[w := last];
  }
}
