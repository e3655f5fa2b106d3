/**
 What every delivery ends with: the closed form of its result, its
 acknowledgement record, its dead letter, its sends and its waits; the
 sequential engine that meets it; and the theorem for every schedule.
 */
module DeliveryOutcome {
  import opened Results
  import opened Delivery

  // ---- closed form ----

  predicate TransientBefore(c: Connector, a: int) {
    forall k :: 1 <= k < a ==> c.outcome(k).Transient?
  }

  /** The attempt that decides: the first non-transient outcome, or the last one allowed. */
  function LastAttempt(c: Connector, a: int, max: int): (d: int)
    requires 1 <= a <= max && TransientBefore(c, a)
    ensures a <= d <= max && TransientBefore(c, d)
    ensures c.outcome(d).Transient? ==> d == max
    decreases max - a
  {
    if c.outcome(a).Transient? && a < max then LastAttempt(c, a + 1, max) else a
  }

  /** The k-th sleep (k from 0); also the backoff in force during attempt k + 1. */
  function Backoff(cfg: Config, k: nat): real {
    if k == 0 then cfg.initialBackoff else Min(Backoff(cfg, k - 1) * 2.0, cfg.maxBackoff)
  }

  /** The first `n` sleeps. */
  function Waits(cfg: Config, n: nat): (w: seq<real>)
    ensures |w| == n && forall k :: 0 <= k < n ==> w[k] == Backoff(cfg, k)
  {
    seq(n, k requires 0 <= k < n => Backoff(cfg, k))
  }

  function Prior(ack: Option<Ack>): int {
    if ack.Some? then ack.value.attempts else 0
  }

  /** The record while attempt `a` is being sent, after `a - 1` transient failures. */
  function SendingAck(ack: Option<Ack>, c: Connector, e: Event, a: nat): Ack
    requires a >= 1 && TransientBefore(c, a)
  {
    var first := Attempted(ack, e.id, c.name);
    if a == 1 then first
    else first.(status := RetriableFailure, attempts := Prior(ack) + a, lastError := Some(c.outcome(a - 1).error))
  }

  /** The state a delivery ends in. */
  function Conclusion(cfg: Config, c: Connector, e: Event, ack: Option<Ack>, letters: seq<DeadLetter>): Solo {
    if cfg.maxRetries < 1 then
      Solo(Finished(false), 1, cfg.initialBackoff, [], Some(Failed(ack, e.id, c.name, "", true)),
           letters + [Exhausted(cfg, c, e, "")])
    else
      var d := LastAttempt(c, 1, cfg.maxRetries);
      var sent := SendingAck(ack, c, e, d);
      var s := Solo(Finished(true), d, Backoff(cfg, d - 1), Waits(cfg, d - 1), None, letters);
      match c.outcome(d)
      case Delivered => s.(ack := Some(sent.(status := Acknowledged)))
      case Permanent(error) =>
        s.(phase := Finished(false), ack := Some(sent.(status := DlqPromoted, lastError := Some(error))),
           letters := letters + [DeadLetter(e.id, c.name, d, PermanentSchemaError, error, e)])
      case Transient(error) =>
        s.(phase := Finished(false), ack := Some(sent.(status := DlqPromoted, lastError := Some(error))),
           letters := letters + [Exhausted(cfg, c, e, error)])
  }

  /** A dead letter names the last failure: a permanent one, or the one that used up the allowed sends. */
  predicate LetterTells(l: DeadLetter, s: Solo, cfg: Config, c: Connector) {
    && s.ack.Some? && s.ack.value.lastError == Some(l.error)
    && (l.code == PermanentSchemaError <==> cfg.maxRetries >= 1 && c.outcome(s.attempt).Permanent?)
    && (cfg.maxRetries >= 1 ==> !c.outcome(s.attempt).Delivered? && l.error == c.outcome(s.attempt).error)
    && l.attempts == if l.code == PermanentSchemaError then s.attempt else cfg.maxRetries
  }

  /** Reading the closed form: one verdict, one record, at most one dead letter. */
  lemma ConclusionMeaning(cfg: Config, c: Connector, e: Event, ack: Option<Ack>, letters: seq<DeadLetter>)
    ensures var s := Conclusion(cfg, c, e, ack, letters);
      && s.phase.Finished? && s.ack.Some?
      // accepted exactly when some allowed send is delivered after only transient failures
      && (s.phase.ok <==> exists a :: 1 <= a <= cfg.maxRetries && TransientBefore(c, a) && c.outcome(a).Delivered?)
      && (s.phase.ok ==> s.ack.value.status == Acknowledged && s.letters == letters)
      && (!s.phase.ok ==> s.ack.value.status == DlqPromoted)
      && (!s.phase.ok ==>
           exists l ::
             && s.letters == letters + [l] && l.event == e && l.destination == c.name && l.eventId == e.id
             && LetterTells(l, s, cfg, c))
      // sends are counted and bounded, and there is one sleep between two sends
      && (cfg.maxRetries >= 1 ==> 1 <= s.attempt <= cfg.maxRetries && s.ack.value.attempts == Prior(ack) + s.attempt)
      && |s.waits| == s.attempt - 1
      && (forall k :: 0 <= k < |s.waits| ==> s.waits[k] == Backoff(cfg, k))
  {
    var s := Conclusion(cfg, c, e, ack, letters);
    if cfg.maxRetries >= 1 {
      var d := LastAttempt(c, 1, cfg.maxRetries);
      forall a | 1 <= a <= cfg.maxRetries && TransientBefore(c, a) && c.outcome(a).Delivered? ensures a == d {
        assert d < a ==> c.outcome(d).Transient?;
      }
    }
    if !s.phase.ok {
      var l := s.letters[|letters|];
      assert s.letters == letters + [l];
    }
  }

  // ---- running alone reaches the closed form ----

  /** A delivery whose attempt `a` is being sent. */
  function InAttempt(cfg: Config, c: Connector, e: Event, ack: Option<Ack>, letters: seq<DeadLetter>, a: nat): Solo
    requires a >= 1 && TransientBefore(c, a)
  {
    Solo(Sending, a, Backoff(cfg, a - 1), Waits(cfg, a - 1), Some(SendingAck(ack, c, e, a)), letters)
  }

  /** `y` is two steps after `x`. */
  ghost predicate TwoSteps(x: Solo, y: Solo, cfg: Config, c: Connector, e: Event) {
    y == Step(Step(x, cfg, c, e), cfg, c, e)
  }

  /** Alone, a delivery is at `x` after `n` steps. */
  ghost predicate Reaches(s: Solo, n: nat, x: Solo, cfg: Config, c: Connector, e: Event) {
    Alone(s, n, cfg, c, e) == x
  }

  lemma ReachesFurther(s: Solo, n: nat, x: Solo, y: Solo, cfg: Config, c: Connector, e: Event)
    requires Reaches(s, n, x, cfg, c, e) && TwoSteps(x, y, cfg, c, e)
    ensures Reaches(s, n + 2, y, cfg, c, e)
  {
    assert Alone(s, n + 1, cfg, c, e) == Step(x, cfg, c, e);
  }

  /** A transient failure and the sleep after it lead to the next attempt. */
  lemma NextAttempt(cfg: Config, c: Connector, e: Event, ack: Option<Ack>, letters: seq<DeadLetter>, a: nat)
    requires 1 <= a < cfg.maxRetries && TransientBefore(c, a + 1)
    ensures TwoSteps(InAttempt(cfg, c, e, ack, letters, a), InAttempt(cfg, c, e, ack, letters, a + 1), cfg, c, e)
  {
    assert c.outcome(a).Transient?;
    assert Waits(cfg, a) == Waits(cfg, a - 1) + [Backoff(cfg, a - 1)];
  }

  lemma FirstAttempt(cfg: Config, c: Connector, e: Event, ack: Option<Ack>, letters: seq<DeadLetter>)
    requires cfg.maxRetries >= 1
    ensures Reaches(Fresh(cfg, ack, letters), 1, InAttempt(cfg, c, e, ack, letters, 1), cfg, c, e)
  {
    var s := Fresh(cfg, ack, letters);
    assert Alone(s, 0, cfg, c, e) == s;
    assert Waits(cfg, 0) == [];
  }

  lemma {:induction false} ReachesAttempt(
      cfg: Config, c: Connector, e: Event, ack: Option<Ack>, letters: seq<DeadLetter>, a: nat)
    requires 1 <= a <= cfg.maxRetries && TransientBefore(c, a)
    ensures Reaches(Fresh(cfg, ack, letters), 2 * a - 1, InAttempt(cfg, c, e, ack, letters, a), cfg, c, e)
    decreases a
  {
    if a == 1 {
      FirstAttempt(cfg, c, e, ack, letters);
    } else {
      ReachesAttempt(cfg, c, e, ack, letters, a - 1);
      NextAttempt(cfg, c, e, ack, letters, a - 1);
      ReachesFurther(Fresh(cfg, ack, letters), 2 * a - 3, InAttempt(cfg, c, e, ack, letters, a - 1),
                     InAttempt(cfg, c, e, ack, letters, a), cfg, c, e);
    }
  }

  lemma {:induction false} FinishedStays(s: Solo, n: nat, m: nat, cfg: Config, c: Connector, e: Event)
    requires n <= m && Alone(s, n, cfg, c, e).phase.Finished?
    ensures Alone(s, m, cfg, c, e) == Alone(s, n, cfg, c, e)
    decreases m
  {
    if n < m {
      FinishedStays(s, n, m - 1, cfg, c, e);
    }
  }

  /** The number of steps after which a delivery is certainly over. */
  function Bound(cfg: Config): nat {
    if cfg.maxRetries < 1 then 2 else 2 * cfg.maxRetries + 1
  }

  lemma LastAttemptConcludes(cfg: Config, c: Connector, e: Event, ack: Option<Ack>, letters: seq<DeadLetter>, d: nat)
    requires cfg.maxRetries >= 1 && d == LastAttempt(c, 1, cfg.maxRetries)
    ensures TwoSteps(InAttempt(cfg, c, e, ack, letters, d), Conclusion(cfg, c, e, ack, letters), cfg, c, e)
  {
  }

  lemma NoAttemptConcludes(cfg: Config, c: Connector, e: Event, ack: Option<Ack>, letters: seq<DeadLetter>)
    requires cfg.maxRetries < 1
    ensures Reaches(Fresh(cfg, ack, letters), 2, Conclusion(cfg, c, e, ack, letters), cfg, c, e)
  {
    var s := Fresh(cfg, ack, letters);
    assert Alone(s, 0, cfg, c, e) == s;
    assert Alone(s, 1, cfg, c, e) == Step(s, cfg, c, e);
  }

  lemma ConcludesInTime(cfg: Config, c: Connector, e: Event, ack: Option<Ack>, letters: seq<DeadLetter>)
    ensures Reaches(Fresh(cfg, ack, letters), Bound(cfg), Conclusion(cfg, c, e, ack, letters), cfg, c, e)
  {
    if cfg.maxRetries < 1 {
      NoAttemptConcludes(cfg, c, e, ack, letters);
    } else {
      var s, d := Fresh(cfg, ack, letters), LastAttempt(c, 1, cfg.maxRetries);
      ReachesAttempt(cfg, c, e, ack, letters, d);
      LastAttemptConcludes(cfg, c, e, ack, letters, d);
      ReachesFurther(s, 2 * d - 1, InAttempt(cfg, c, e, ack, letters, d), Conclusion(cfg, c, e, ack, letters),
          cfg, c, e);
      ConclusionMeaning(cfg, c, e, ack, letters);
      FinishedStays(s, 2 * d + 1, Bound(cfg), cfg, c, e);
    }
  }

  /** However many steps it took, a finished delivery is in the closed form. */
  lemma FinishedMeansConcluded(cfg: Config, c: Connector, e: Event, ack: Option<Ack>, letters: seq<DeadLetter>, n: nat)
    ensures (n >= Bound(cfg) || Alone(Fresh(cfg, ack, letters), n, cfg, c, e).phase.Finished?) ==>
              Alone(Fresh(cfg, ack, letters), n, cfg, c, e) == Conclusion(cfg, c, e, ack, letters)
  {
    var s := Fresh(cfg, ack, letters);
    ConcludesInTime(cfg, c, e, ack, letters);
    ConclusionMeaning(cfg, c, e, ack, letters);
    if n >= Bound(cfg) {
      FinishedStays(s, Bound(cfg), n, cfg, c, e);
    } else if Alone(s, n, cfg, c, e).phase.Finished? {
      FinishedStays(s, n, Bound(cfg), cfg, c, e);
    }
  }

  /** What the record says while a delivery that found `ack` is at some point. */
  ghost predicate RecordTells(s: Solo, c: Connector, e: Event, ack: Option<Ack>) {
    && (s.phase.Starting? ==> s.ack == ack && s.attempt == 1)
    && (!s.phase.Starting? ==> s.ack.Some?)
    && (ack.None? && s.ack.Some? ==> s.ack.value.eventId == e.id && s.ack.value.destination == c.name)
    && match s.phase
       case Starting => true
       case Sending =>
         && s.ack.value.attempts == Prior(ack) + s.attempt && s.attempt >= 1
         && s.ack.value.status ==
            if s.attempt > 1 then RetriableFailure else if ack.Some? then ack.value.status else Pending
       case Sleeping =>
         && s.ack.value.attempts == Prior(ack) + s.attempt && s.attempt >= 1
         && c.outcome(s.attempt).Transient? && s.ack.value.lastError == Some(c.outcome(s.attempt).error)
         && s.ack.value.status == RetriableFailure
       case Promoting(letter) => s.ack.value.status == DlqPromoted && s.ack.value.lastError == Some(letter.error)
       case Finished(ok) => s.ack.value.status == if ok then Acknowledged else DlqPromoted
  }

  lemma StepTells(s: Solo, cfg: Config, c: Connector, e: Event, ack: Option<Ack>)
    requires RecordTells(s, c, e, ack)
    ensures RecordTells(Step(s, cfg, c, e), c, e, ack)
  {
  }

  /** At every point of a delivery the record tells what it is waiting for. */
  lemma {:induction false} RecordAlwaysTells(
      cfg: Config, c: Connector, e: Event, ack: Option<Ack>, letters: seq<DeadLetter>, n: nat)
    ensures RecordTells(Alone(Fresh(cfg, ack, letters), n, cfg, c, e), c, e, ack)
  {
    if n > 0 {
      RecordAlwaysTells(cfg, c, e, ack, letters, n - 1);
      StepTells(Alone(Fresh(cfg, ack, letters), n - 1, cfg, c, e), cfg, c, e, ack);
    }
  }

  // ---- every schedule ----

  /**
   For every interleaving of independent deliveries: a delivery that is
   over, and any that was resumed often enough is, ended as it would have alone,
   in its result, its record, its dead letters and its waits.
   */
  lemma EveryScheduleConcludes(w: World, order: seq<nat>, i: nat, cfg: Config, jobs: seq<Job>)
    requires Launched(w, cfg, jobs) && Independent(w, cfg, jobs) && i < |jobs| && ValidOrder(order, jobs)
    ensures var last := Schedule(w, order, cfg, jobs);
            (Count(order, i) >= Bound(cfg) || last.tasks[i].phase.Finished?) ==>
              View(last, i, jobs) ==
              Conclusion(cfg, jobs[i].c, jobs[i].e, View(w, i, jobs).ack, View(w, i, jobs).letters)
  {
    LaunchedIsOrderly(w, cfg, jobs);
    Interleaving(w, order, i, cfg, jobs);
    var v := View(w, i, jobs);
    assert v == Fresh(cfg, v.ack, v.letters);
    FinishedMeansConcluded(cfg, jobs[i].c, jobs[i].e, v.ack, v.letters, Count(order, i));
  }

  /** What `deliver_to_all` is called with: one event and its connectors. */
  function JobsFor(cs: seq<Connector>, e: Event): (jobs: seq<Job>)
    ensures |jobs| == |cs| && forall i :: 0 <= i < |cs| ==> jobs[i] == Job(cs[i], e)
  {
    seq(|cs|, i requires 0 <= i < |cs| => Job(cs[i], e))
  }

  predicate DistinctNames(cs: seq<Connector>) {
    forall i, j :: 0 <= i < j < |cs| ==> cs[i].name != cs[j].name
  }

  /** The schedule lets every delivery finish. */
  predicate Completes(w: World, order: seq<nat>, cfg: Config, jobs: seq<Job>) {
    && |w.tasks| == |jobs| && ValidOrder(order, jobs)
    && forall i :: 0 <= i < |jobs| ==> Schedule(w, order, cfg, jobs).tasks[i].phase.Finished?
  }

  /** The mapping `deliver_to_all` returns. */
  function ResultsOf(w: World, cs: seq<Connector>): map<string, bool>
    requires |w.tasks| == |cs| && DistinctNames(cs)
    requires forall i :: 0 <= i < |cs| ==> w.tasks[i].phase.Finished?
  {
    map i | 0 <= i < |cs| :: cs[i].name := w.tasks[i].phase.ok
  }

  lemma PhaseAtEnd(w: World, order: seq<nat>, i: nat, cfg: Config, jobs: seq<Job>)
    requires Launched(w, cfg, jobs) && Independent(w, cfg, jobs) && i < |jobs| && Completes(w, order, cfg, jobs)
    ensures Schedule(w, order, cfg, jobs).tasks[i].phase ==
            Conclusion(cfg, jobs[i].c, jobs[i].e, View(w, i, jobs).ack, View(w, i, jobs).letters).phase
  {
    EveryScheduleConcludes(w, order, i, cfg, jobs);
  }

  lemma PhasesAgree(w: World, a: seq<nat>, b: seq<nat>, i: nat, cfg: Config, jobs: seq<Job>)
    requires Launched(w, cfg, jobs) && Independent(w, cfg, jobs) && i < |jobs|
    requires Completes(w, a, cfg, jobs) && Completes(w, b, cfg, jobs)
    ensures Schedule(w, a, cfg, jobs).tasks[i].phase == Schedule(w, b, cfg, jobs).tasks[i].phase
  {
    PhaseAtEnd(w, a, i, cfg, jobs);
    PhaseAtEnd(w, b, i, cfg, jobs);
  }

  lemma SamePhasesSameResults(a: World, b: World, cs: seq<Connector>)
    requires |a.tasks| == |b.tasks| == |cs| && DistinctNames(cs)
    requires forall i :: 0 <= i < |cs| ==> a.tasks[i].phase.Finished? && a.tasks[i].phase == b.tasks[i].phase
    ensures ResultsOf(a, cs) == ResultsOf(b, cs)
  {
  }

  lemma NamesAreIndependent(w: World, cfg: Config, cs: seq<Connector>, e: Event)
    requires DistinctNames(cs)
    ensures Independent(w, cfg, JobsFor(cs, e))
  {
    OneEventHasDistinctKeys(JobsFor(cs, e), e);
    DistinctIsIndependent(w, cfg, JobsFor(cs, e));
  }

  /** The returned mapping does not depend on the schedule. */
  lemma ResultsIndependentOfSchedule(w: World, a: seq<nat>, b: seq<nat>, cfg: Config, cs: seq<Connector>, e: Event)
    requires Launched(w, cfg, JobsFor(cs, e)) && DistinctNames(cs)
    requires Completes(w, a, cfg, JobsFor(cs, e)) && Completes(w, b, cfg, JobsFor(cs, e))
    ensures ResultsOf(Schedule(w, a, cfg, JobsFor(cs, e)), cs) == ResultsOf(Schedule(w, b, cfg, JobsFor(cs, e)), cs)
  {
    var jobs := JobsFor(cs, e);
    NamesAreIndependent(w, cfg, cs, e);
    forall i | 0 <= i < |cs|
      ensures Schedule(w, a, cfg, jobs).tasks[i].phase == Schedule(w, b, cfg, jobs).tasks[i].phase
    {
      PhasesAgree(w, a, b, i, cfg, jobs);
    }
    SamePhasesSameResults(Schedule(w, a, cfg, jobs), Schedule(w, b, cfg, jobs), cs);
  }

  // ---- the backoff in closed form ----

  function Power(base: real, n: nat): real {
    if n == 0 then 1.0 else base * Power(base, n - 1)
  }

  /** `calculate_delay` (integration/adapters/retry_policy.py) without jitter, in seconds. */
  function CalculateDelay(baseMs: real, multiplier: real, maxMs: real, attempt: nat): real {
    Min(baseMs * Power(multiplier, attempt), maxMs) / 1000.0
  }

  function Doubled(x: real, k: nat): real {
    if k == 0 then x else 2.0 * Doubled(x, k - 1)
  }

  lemma {:induction false} DoubledIsPower(x: real, k: nat)
    ensures Doubled(x, k) == x * Power(2.0, k)
  {
    if k > 0 {
      DoubledIsPower(x, k - 1);
      assert x * (2.0 * Power(2.0, k - 1)) == 2.0 * (x * Power(2.0, k - 1));
    }
  }

  lemma {:induction false} DoubledShrinks(x: real, k: nat)
    requires x <= 0.0
    ensures Doubled(x, k) <= x
  {
    if k > 0 {
      DoubledShrinks(x, k - 1);
    }
  }

  lemma {:induction false} BackoffClosedForm(cfg: Config, k: nat)
    requires cfg.initialBackoff <= cfg.maxBackoff
    ensures Backoff(cfg, k) == Min(Doubled(cfg.initialBackoff, k), cfg.maxBackoff)
  {
    if k > 0 {
      BackoffClosedForm(cfg, k - 1);
      if cfg.maxBackoff < 0.0 {
        DoubledShrinks(cfg.initialBackoff, k - 1);
      }
    }
  }

  lemma DelayIsCapped(cfg: Config, k: nat)
    ensures CalculateDelay(1000.0 * cfg.initialBackoff, 2.0, 1000.0 * cfg.maxBackoff, k) ==
            Min(Doubled(cfg.initialBackoff, k), cfg.maxBackoff)
  {
    DoubledIsPower(cfg.initialBackoff, k);
    var p := Power(2.0, k);
    assert 1000.0 * cfg.initialBackoff * p == 1000.0 * (cfg.initialBackoff * p);
  }

  /**
   The waits are the capped powers of two of the shared retry policy exactly
   when the first backoff is within the cap (the code never caps the first wait).
   */
  lemma BackoffFollowsPolicy(cfg: Config)
    ensures cfg.initialBackoff <= cfg.maxBackoff <==>
            forall k: nat :: Backoff(cfg, k) == CalculateDelay(1000.0 * cfg.initialBackoff, 2.0,
                1000.0 * cfg.maxBackoff, k)
  {
    forall k: nat
      ensures CalculateDelay(1000.0 * cfg.initialBackoff, 2.0, 1000.0 * cfg.maxBackoff, k) ==
              Min(Doubled(cfg.initialBackoff, k), cfg.maxBackoff)
      ensures cfg.initialBackoff <= cfg.maxBackoff ==>
              Backoff(cfg, k) == Min(Doubled(cfg.initialBackoff, k), cfg.maxBackoff)
    {
      DelayIsCapped(cfg, k);
      if cfg.initialBackoff <= cfg.maxBackoff {
        BackoffClosedForm(cfg, k);
      }
    }
    assert Backoff(cfg, 0) == cfg.initialBackoff == Doubled(cfg.initialBackoff, 0);
  }
}
