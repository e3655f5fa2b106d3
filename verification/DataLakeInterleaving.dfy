/**
 The data-lake writer over a storage backend whose awaits suspend, so that
 sends interleave between the check of the window and its update
 (M5/app/datalake/writer.py).
 */
module DataLakeInterleaving {
  import opened OrderedDicts
  import opened DataLake

  /** A send checks the window, awaits the storage, and records; other sends run in between. */
  datatype Op = Begin(task: nat, id: string) | Finish(task: nat) | Fail(task: nat)

  datatype Flow = Flow(w: Window, inFlight: map<nat, string>, written: seq<string>)

  function Step(s: Flow, limit: nat, op: Op): Flow {
    match op
    case Begin(t, id) => if id in s.w.seen || t in s.inFlight then s else s.(inFlight := s.inFlight[t := id])
    case Fail(t) => s.(inFlight := s.inFlight - {t})
    case Finish(t) =>
      if t !in s.inFlight then s
      else Flow(Recorded(s.w, limit, s.inFlight[t]), s.inFlight - {t}, s.written + [s.inFlight[t]])
  }

  const IDLE: Flow := Flow(Window({}, []), map[], [])

  /** The state before operation `n`. */
  function At(ops: seq<Op>, limit: nat, n: nat): Flow
    requires n <= |ops|
  {
    if n == 0 then IDLE else Step(At(ops, limit, n - 1), limit, ops[n - 1])
  }

  // ---- exactly when the window works ----

  /** A send finishes although its event has entered the window since the send checked it. */
  predicate Breach(s: Flow, op: Op) {
    op.Finish? && op.task in s.inFlight && s.inFlight[op.task] in s.w.order
  }

  /** There was no breach before operation `n`. */
  predicate Clean(ops: seq<Op>, limit: nat, n: nat) {
    n == 0 || (n <= |ops| && Clean(ops, limit, n - 1) && !Breach(At(ops, limit, n - 1), ops[n - 1]))
  }

  lemma CleanBefore(ops: seq<Op>, limit: nat, n: nat)
    requires 0 < n && Clean(ops, limit, n)
    ensures n <= |ops| && Clean(ops, limit, n - 1) && !Breach(At(ops, limit, n - 1), ops[n - 1])
  {
  }

  lemma CleanNext(ops: seq<Op>, limit: nat, n: nat)
    requires 0 < n <= |ops| && Clean(ops, limit, n - 1) && !Breach(At(ops, limit, n - 1), ops[n - 1])
    ensures Clean(ops, limit, n)
  {
  }

  ghost predicate Windowed(s: Flow, limit: nat) {
    WindowInv(s.w, s.written, limit)
  }

  lemma IdleIsWindowed(limit: nat)
    ensures Windowed(IDLE, limit)
  {
  }

  lemma StepKeepsWindowed(s: Flow, limit: nat, op: Op)
    requires limit >= 1 && Windowed(s, limit) && !Breach(s, op)
    ensures Windowed(Step(s, limit, op), limit)
  {
    if op.Finish? && op.task in s.inFlight {
      WriteKeepsWindow(s.w, s.written, limit, s.inFlight[op.task]);
    }
  }

  lemma {:induction false} CleanKeepsWindow(ops: seq<Op>, limit: nat, n: nat)
    requires limit >= 1 && Clean(ops, limit, n)
    ensures Windowed(At(ops, limit, n), limit)
  {
    if n == 0 {
      IdleIsWindowed(limit);
    } else {
      CleanBefore(ops, limit, n);
      CleanKeepsWindow(ops, limit, n - 1);
      StepKeepsWindowed(At(ops, limit, n - 1), limit, ops[n - 1]);
    }
  }

  lemma RepeatIsUnspaced(written: seq<string>, limit: nat, id: string)
    requires id in Latest(written, limit)
    ensures !Spaced(written + [id], limit)
  {
    var base := if |written| <= limit then 0 else |written| - limit;
    var i :| 0 <= i < |Latest(written, limit)| && Latest(written, limit)[i] == id;
    var more := written + [id];
    assert more[base + i] == id && more[|written|] == id;
  }

  lemma SpacedBefore(s: Flow, limit: nat, op: Op)
    requires Spaced(Step(s, limit, op).written, limit)
    ensures Spaced(s.written, limit)
  {
    var more := Step(s, limit, op).written;
    assert forall i :: 0 <= i < |s.written| ==> s.written[i] == more[i];
  }

  lemma BreachUnspaces(s: Flow, limit: nat, op: Op)
    requires Windowed(s, limit) && Breach(s, op)
    ensures !Spaced(Step(s, limit, op).written, limit)
  {
    RepeatIsUnspaced(s.written, limit, s.inFlight[op.task]);
  }

  ghost predicate SpacedAt(ops: seq<Op>, limit: nat, n: nat) {
    n <= |ops| && Spaced(At(ops, limit, n).written, limit)
  }

  lemma SpacedAtBefore(ops: seq<Op>, limit: nat, n: nat)
    requires 0 < n && SpacedAt(ops, limit, n)
    ensures SpacedAt(ops, limit, n - 1)
  {
    SpacedBefore(At(ops, limit, n - 1), limit, ops[n - 1]);
  }

  lemma NoBreachBefore(ops: seq<Op>, limit: nat, n: nat)
    requires limit >= 1 && 0 < n && SpacedAt(ops, limit, n) && Clean(ops, limit, n - 1)
    ensures !Breach(At(ops, limit, n - 1), ops[n - 1])
  {
    CleanKeepsWindow(ops, limit, n - 1);
    if Breach(At(ops, limit, n - 1), ops[n - 1]) {
      BreachUnspaces(At(ops, limit, n - 1), limit, ops[n - 1]);
    }
  }

  lemma NothingIsClean(ops: seq<Op>, limit: nat)
    ensures Clean(ops, limit, 0)
  {
  }

  lemma {:induction false} SpacedIsClean(ops: seq<Op>, limit: nat, n: nat)
    requires limit >= 1 && SpacedAt(ops, limit, n)
    ensures Clean(ops, limit, n)
  {
    if n == 0 {
      NothingIsClean(ops, limit);
    } else {
      SpacedAtBefore(ops, limit, n);
      SpacedIsClean(ops, limit, n - 1);
      NoBreachBefore(ops, limit, n);
      CleanNext(ops, limit, n);
    }
  }

  /**
   Under any interleaving, the last `limit` writes never repeat an event exactly
   when no send finishes with its event already in the window.
   */
  lemma SpacedExactly(ops: seq<Op>, limit: nat, n: nat)
    requires limit >= 1 && n <= |ops|
    ensures SpacedAt(ops, limit, n) <==> Clean(ops, limit, n)
  {
    if Clean(ops, limit, n) {
      CleanKeepsWindow(ops, limit, n);
    } else if SpacedAt(ops, limit, n) {
      SpacedIsClean(ops, limit, n);
    }
  }

  // ---- sends that do not overlap ----

  /** No send starts while another one for the same event is in flight. */
  ghost predicate NoOverlap(ops: seq<Op>, limit: nat) {
    forall n :: 0 <= n < |ops| && ops[n].Begin? ==> ops[n].id !in At(ops, limit, n).inFlight.Values
  }

  /** What is in flight is not in the window, and once only. */
  ghost predicate FlightInv(order: seq<string>, inFlight: map<nat, string>) {
    && (forall t :: t in inFlight ==> inFlight[t] !in order)
    && (forall t, u :: t in inFlight && u in inFlight && inFlight[t] == inFlight[u] ==> t == u)
  }

  ghost predicate Inv(s: Flow, limit: nat) {
    WindowInv(s.w, s.written, limit) && FlightInv(s.w.order, s.inFlight)
  }

  lemma WriteKeepsFlight(w: Window, inFlight: map<nat, string>, limit: nat, t: nat)
    requires FlightInv(w.order, inFlight) && t in inFlight
    ensures FlightInv(Recorded(w, limit, inFlight[t]).order, inFlight - {t})
  {
    forall u | u in inFlight - {t} ensures inFlight[u] !in Recorded(w, limit, inFlight[t]).order {
      RoomHoldsLess(w, limit, inFlight[u]);
    }
  }

  lemma StepKeepsInv(s: Flow, limit: nat, op: Op)
    requires limit >= 1 && Inv(s, limit) && (op.Begin? ==> op.id !in s.inFlight.Values)
    ensures Inv(Step(s, limit, op), limit)
  {
    if op.Finish? && op.task in s.inFlight {
      WriteKeepsWindow(s.w, s.written, limit, s.inFlight[op.task]);
      WriteKeepsFlight(s.w, s.inFlight, limit, op.task);
    }
  }

  lemma IdleKeepsInv(limit: nat)
    ensures Inv(IDLE, limit)
  {
  }

  lemma {:induction false} RunKeepsInv(ops: seq<Op>, limit: nat, n: nat)
    requires limit >= 1 && n <= |ops| && NoOverlap(ops, limit)
    ensures Inv(At(ops, limit, n), limit)
  {
    if n == 0 {
      IdleKeepsInv(limit);
    } else {
      RunKeepsInv(ops, limit, n - 1);
      StepKeepsInv(At(ops, limit, n - 1), limit, ops[n - 1]);
    }
  }

  /** In particular whenever no two sends of one event overlap. */
  lemma NoOverlapIsClean(ops: seq<Op>, limit: nat, n: nat)
    requires limit >= 1 && n <= |ops| && NoOverlap(ops, limit)
    ensures Clean(ops, limit, n)
  {
    forall k | 0 <= k < n ensures !Breach(At(ops, limit, k), ops[k]) {
      RunKeepsInv(ops, limit, k);
    }
  }

  /** Two different sends of the event are in flight together before operation `m`, which finishes the second. */
  ghost predicate FinishesBeside(ops: seq<Op>, limit: nat, m: nat, t: nat, u: nat, id: string) {
    && m < |ops| && t != u && ops[m] == Finish(u)
    && t in At(ops, limit, m).inFlight && At(ops, limit, m).inFlight[t] == id
    && u in At(ops, limit, m).inFlight && At(ops, limit, m).inFlight[u] == id
  }

  /** The send `t` of this event is in flight while the event is in the window: finishing now is a breach. */
  ghost predicate Poised(ops: seq<Op>, limit: nat, n: nat, t: nat, id: string) {
    && n <= |ops| && t in At(ops, limit, n).inFlight && At(ops, limit, n).inFlight[t] == id
    && id in At(ops, limit, n).w.order
  }

  /** No breach so far, but the next operation may be one. */
  ghost predicate AtRisk(ops: seq<Op>, limit: nat, n: nat, t: nat, id: string) {
    Clean(ops, limit, n) && Poised(ops, limit, n, t, id)
  }

  lemma RiskBefore(ops: seq<Op>, limit: nat, n: nat, t: nat, id: string)
    requires limit >= 1 && AtRisk(ops, limit, n, t, id)
    ensures n > 0 && (AtRisk(ops, limit, n - 1, t, id) || Beside(ops, limit, n - 1, t, id))
  {
    var s, s' := At(ops, limit, n - 1), At(ops, limit, n);
    CleanKeepsWindow(ops, limit, n - 1);
    if !(t in s.inFlight && s.inFlight[t] == id && id in s.w.order) {
      EntersBeside(s, s', limit, ops[n - 1], t);
      assert FinishesBeside(ops, limit, n - 1, t, ops[n - 1].task, id);
    }
  }

  ghost predicate Beside(ops: seq<Op>, limit: nat, m: nat, t: nat, id: string) {
    exists u :: FinishesBeside(ops, limit, m, t, u, id)
  }

  /** Walking back from a risky point one meets the operation that made it so. */
  lemma {:induction false} WalkBack(risky: nat -> bool, cause: nat -> bool, n: nat) returns (m: nat)
    requires risky(n) && forall k: nat :: risky(k) ==> k > 0 && (risky(k - 1) || cause(k - 1))
    ensures m < n && cause(m)
  {
    if cause(n - 1) {
      m := n - 1;
    } else {
      m := WalkBack(risky, cause, n - 1);
    }
  }

  ghost function Risk(ops: seq<Op>, limit: nat, t: nat, id: string): nat -> bool {
    (n: nat) => AtRisk(ops, limit, n, t, id)
  }

  ghost function Cause(ops: seq<Op>, limit: nat, t: nat, id: string): nat -> bool {
    (m: nat) => Beside(ops, limit, m, t, id)
  }

  lemma RiskHasCause(ops: seq<Op>, limit: nat, n: nat, t: nat, id: string)
    requires limit >= 1
    ensures var risky, cause := Risk(ops, limit, t, id), Cause(ops, limit, t, id);
            risky(n) ==> n > 0 && (risky(n - 1) || cause(n - 1))
  {
    if AtRisk(ops, limit, n, t, id) {
      RiskBefore(ops, limit, n, t, id);
    }
  }

  /** The first breach takes another send of the same event that finished while this one was in flight. */
  lemma {:induction false} BreachNeedsOverlap(ops: seq<Op>, limit: nat, n: nat, t: nat, id: string)
    requires limit >= 1 && AtRisk(ops, limit, n, t, id)
    ensures exists m :: 0 <= m < n && Beside(ops, limit, m, t, id)
  {
    var risky, cause := Risk(ops, limit, t, id), Cause(ops, limit, t, id);
    forall k: nat ensures risky(k) ==> k > 0 && (risky(k - 1) || cause(k - 1)) {
      RiskHasCause(ops, limit, k, t, id);
    }
    var m := WalkBack(risky, cause, n);
    assert Beside(ops, limit, m, t, id);
  }

  lemma EntersBeside(s: Flow, s': Flow, limit: nat, op: Op, t: nat)
    requires Tidy(s.w, limit) && s' == Step(s, limit, op) && t in s'.inFlight && s'.inFlight[t] in s'.w.order
    requires !(t in s.inFlight && s.inFlight[t] == s'.inFlight[t] && s'.inFlight[t] in s.w.order)
    ensures op.Finish? && op.task != t && op.task in s.inFlight && s.inFlight[op.task] == s'.inFlight[t]
    ensures t in s.inFlight && s.inFlight[t] == s'.inFlight[t]
  {
    if op.Finish? && op.task in s.inFlight {
      var room := Room(s.w, limit).order;
      assert s'.w.order == room + [s.inFlight[op.task]];
      assert forall x :: x in room ==> x in s.w.order;
    }
  }

  /**
   Between two writes of one event, a full window of distinct other events was
   written, unless some send finished with its event already in the window.
   */
  lemma InterleavedRewritesAreFarApart(ops: seq<Op>, limit: nat, n: nat, i: nat, j: nat)
    requires limit >= 1 && Clean(ops, limit, n)
    requires i < j < |At(ops, limit, n).written| && At(ops, limit, n).written[i] == At(ops, limit, n).written[j]
    ensures j - i > limit
    ensures var between := At(ops, limit, n).written[j - limit..j];
            DistinctSeq(between) && At(ops, limit, n).written[i] !in between && |Elements(between)| == limit
  {
    CleanKeepsWindow(ops, limit, n);
    FarApart(At(ops, limit, n).written, limit, i, j);
  }

  lemma FourSteps(ops: seq<Op>, limit: nat)
    requires |ops| == 4
    ensures At(ops, limit, 1) == Step(IDLE, limit, ops[0])
    ensures At(ops, limit, 4) ==
            Step(Step(Step(Step(IDLE, limit, ops[0]), limit, ops[1]), limit, ops[2]), limit, ops[3])
  {
    assert At(ops, limit, 0) == IDLE;
    assert At(ops, limit, 2) == Step(At(ops, limit, 1), limit, ops[1]);
    assert At(ops, limit, 3) == Step(At(ops, limit, 2), limit, ops[2]);
  }

  lemma OverlapSteps(limit: nat, id: string)
    requires limit >= 2
    ensures var both := Step(Step(IDLE, limit, Begin(1, id)), limit, Begin(2, id));
            var last := Step(Step(both, limit, Finish(1)), limit, Finish(2));
            last.written == [id, id] && last.w == Window({id}, [id, id])
  {
    var both := Step(Step(IDLE, limit, Begin(1, id)), limit, Begin(2, id));
    assert both.inFlight == map[1 := id, 2 := id] && both.w == Window({}, []);
    var first := Step(both, limit, Finish(1));
    assert first.inFlight == map[2 := id] && first.w == Window({id}, [id]) && first.written == [id];
  }

  /** Two overlapping sends of one event both write it, and the list then holds it twice. */
  lemma OverlapWritesTwice(limit: nat, id: string)
    requires limit >= 2
    ensures var ops := [Begin(1, id), Begin(2, id), Finish(1), Finish(2)];
            var s := At(ops, limit, 4);
            !NoOverlap(ops, limit) && s.written == [id, id] && s.w == Window({id}, [id, id])
  {
    var ops := [Begin(1, id), Begin(2, id), Finish(1), Finish(2)];
    FourSteps(ops, limit);
    assert At(ops, limit, 1).inFlight == map[1 := id];
    OverlapSteps(limit, id);
    assert At(ops, limit, 1).inFlight[1] in At(ops, limit, 1).inFlight.Values && ops[1].id == id;
  }
}
