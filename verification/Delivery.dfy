/**
 Delivery with retries (M5/app/delivery/retry.py, ack.py, dlq.py): the protocol
 of one delivery split at its awaits, any interleaving of several deliveries
 over the shared acknowledgement records and dead-letter queue, and the closed
 form of what each delivery ends with.
 */
module Delivery {
  import opened Results
  import opened Orders
  import OrderedDicts

  datatype Event = Event(id: string, body: string)

  /** What one `connector.send` does: returns, raises ValueError, or raises anything else. */
  datatype Outcome = Delivered | Permanent(error: string) | Transient(error: string)

  datatype AckState = Pending | Acknowledged | RetriableFailure | DlqPromoted

  datatype Ack = Ack(eventId: string, destination: string, status: AckState, attempts: int, lastError: Option<string>)

  datatype FailureCode = PermanentSchemaError | DestinationUnavailable

  datatype DeadLetter =
    DeadLetter(eventId: string, destination: string, attempts: int, code: FailureCode, error: string, event: Event)

  datatype Config = Config(maxRetries: int, initialBackoff: real, maxBackoff: real)

  /** A connector: its name and the outcome of its k-th send (k from 1). */
  datatype Connector = Connector(name: string, outcome: int -> Outcome)

  // ---- acknowledgement records ----

  function Key(eventId: string, destination: string): string {
    eventId + "::" + destination
  }

  function Attempted(r: Option<Ack>, id: string, dest: string): Ack {
    match r
    case None => Ack(id, dest, Pending, 1, None)
    case Some(a) => a.(attempts := a.attempts + 1)
  }

  function Acked(r: Option<Ack>, id: string, dest: string): Ack {
    var a := if r.Some? then r.value else Ack(id, dest, Acknowledged, 1, None);
    a.(status := Acknowledged)
  }

  function Failed(r: Option<Ack>, id: string, dest: string, error: string, isDlq: bool): Ack {
    var a := if r.Some? then r.value else Ack(id, dest, RetriableFailure, 1, None);
    a.(status := if isDlq then DlqPromoted else RetriableFailure, lastError := Some(error))
  }

  // ---- one delivery, split at its awaits ----

  datatype Phase =
    | Starting
    | Sending                       // awaiting connector.send
    | Sleeping                      // awaiting the backoff sleep
    | Promoting(letter: DeadLetter) // awaiting dlq.push
    | Finished(ok: bool)

  /** A delivery with the part of the shared state it works on. */
  datatype Solo = Solo(phase: Phase, attempt: int, backoff: real, waits: seq<real>, ack: Option<Ack>,
      letters: seq<DeadLetter>)

  function Min(a: real, b: real): real {
    if a <= b then a else b
  }

  function Exhausted(cfg: Config, c: Connector, e: Event, error: string): DeadLetter {
    DeadLetter(e.id, c.name, cfg.maxRetries, DestinationUnavailable, error, e)
  }

  /** Runs a delivery from one await to the next. */
  function Step(s: Solo, cfg: Config, c: Connector, e: Event): Solo {
    match s.phase
    case Starting =>
      if cfg.maxRetries < 1 then
        s.(phase := Promoting(Exhausted(cfg, c, e, "")), ack := Some(Failed(s.ack, e.id, c.name, "", true)))
      else
        s.(phase := Sending, ack := Some(Attempted(s.ack, e.id, c.name)))
    case Sending =>
      (match c.outcome(s.attempt)
       case Delivered => s.(phase := Finished(true), ack := Some(Acked(s.ack, e.id, c.name)))
       case Permanent(error) =>
         s.(phase := Promoting(DeadLetter(e.id, c.name, s.attempt, PermanentSchemaError, error, e)),
            ack := Some(Failed(s.ack, e.id, c.name, error, true)))
       case Transient(error) =>
         var failed := Some(Failed(s.ack, e.id, c.name, error, false));
         if s.attempt < cfg.maxRetries then s.(phase := Sleeping, ack := failed)
         else s.(phase := Promoting(Exhausted(cfg, c, e, error)),
                 ack := Some(Failed(failed, e.id, c.name, error, true))))
    case Sleeping =>
      s.(phase := Sending, attempt := s.attempt + 1, waits := s.waits + [s.backoff],
         backoff := Min(s.backoff * 2.0, cfg.maxBackoff), ack := Some(Attempted(s.ack, e.id, c.name)))
    case Promoting(letter) => s.(phase := Finished(false), letters := s.letters + [letter])
    case Finished(_) => s
  }

  function Fresh(cfg: Config, ack: Option<Ack>, letters: seq<DeadLetter>): Solo {
    Solo(Starting, 1, cfg.initialBackoff, [], ack, letters)
  }

  /** A delivery run alone for `n` steps. */
  function Alone(s: Solo, n: nat, cfg: Config, c: Connector, e: Event): Solo {
    if n == 0 then s else Step(Alone(s, n - 1, cfg, c, e), cfg, c, e)
  }

  // ---- several deliveries, of one event or of many ----

  /** What is delivered where. */
  datatype Job = Job(c: Connector, e: Event) {
    function Record(): string {
      Key(e.id, c.name)
    }
  }

  datatype Task = Task(phase: Phase, attempt: int, backoff: real, waits: seq<real>)

  /** Concurrent deliveries over the shared records and dead-letter queue. */
  datatype World = World(tasks: seq<Task>, records: map<string, Ack>, dlq: seq<DeadLetter>)

  function Get(m: map<string, Ack>, k: string): Option<Ack> {
    if k in m then Some(m[k]) else None
  }

  function Owns(job: Job): DeadLetter -> bool {
    (d: DeadLetter) => d.eventId == job.e.id && d.destination == job.c.name
  }

  /** What delivery `i` sees of the world. */
  function View(w: World, i: nat, jobs: seq<Job>): Solo
    requires i < |w.tasks| == |jobs|
  {
    var t := w.tasks[i];
    Solo(t.phase, t.attempt, t.backoff, t.waits, Get(w.records, jobs[i].Record()), Filter(w.dlq, Owns(jobs[i])))
  }

  /** The scheduler resumes delivery `i`: it works on the shared state directly. */
  function Resume(w: World, i: nat, cfg: Config, jobs: seq<Job>): (w': World)
    requires i < |w.tasks| == |jobs|
    ensures |w'.tasks| == |w.tasks|
  {
    var t, key := w.tasks[i], jobs[i].Record();
    var s := Step(Solo(t.phase, t.attempt, t.backoff, t.waits, Get(w.records, key), w.dlq), cfg, jobs[i].c, jobs[i].e);
    World(w.tasks[i := Task(s.phase, s.attempt, s.backoff, s.waits)],
          if s.ack.Some? then w.records[key := s.ack.value] else w.records, s.letters)
  }

  /** The schedule resumes existing deliveries only. */
  predicate ValidOrder(order: seq<nat>, jobs: seq<Job>) {
    forall k :: 0 <= k < |order| ==> order[k] < |jobs|
  }

  /** A whole schedule: the order in which the event loop resumes the deliveries. */
  function Schedule(w: World, order: seq<nat>, cfg: Config, jobs: seq<Job>): (w': World)
    requires |w.tasks| == |jobs| && ValidOrder(order, jobs)
    ensures |w'.tasks| == |w.tasks|
  {
    if order == [] then w
    else Resume(Schedule(w, order[..|order| - 1], cfg, jobs), order[|order| - 1], cfg, jobs)
  }

  function Count(order: seq<nat>, i: nat): nat {
    if order == [] then 0
    else Count(order[..|order| - 1], i) + if order[|order| - 1] == i then 1 else 0
  }

  /** No two deliveries share an acknowledgement record. */
  predicate DistinctKeys(jobs: seq<Job>) {
    forall i, j :: 0 <= i < j < |jobs| ==> jobs[i].Record() != jobs[j].Record()
  }

  lemma KeyInjective(id: string, a: string, b: string)
    requires Key(id, a) == Key(id, b)
    ensures a == b
  {
    var n := |id + "::"|;
    assert a == Key(id, a)[n..] && b == Key(id, b)[n..];
  }

  /** Event ids without a colon: keys agree exactly when event and destination do. */
  lemma KeysAreSeparate(id1: string, a: string, id2: string, b: string)
    requires ':' !in id1 && ':' !in id2
    ensures Key(id1, a) == Key(id2, b) <==> id1 == id2 && a == b
  {
    if Key(id1, a) == Key(id2, b) {
      assert Key(id1, a) == id1 + ":" + (":" + a) && Key(id2, b) == id2 + ":" + (":" + b);
      OrderedDicts.ColonSplit(id1, ":" + a, id2, ":" + b);
      KeyInjective(id1, a, b);
    }
  }

  /** Deliveries of one event to distinctly named connectors have distinct records. */
  lemma OneEventHasDistinctKeys(jobs: seq<Job>, e: Event)
    requires forall i :: 0 <= i < |jobs| ==> jobs[i].e == e
    requires forall i, j :: 0 <= i < j < |jobs| ==> jobs[i].c.name != jobs[j].c.name
    ensures DistinctKeys(jobs)
  {
    forall i, j | 0 <= i < j < |jobs| ensures jobs[i].Record() != jobs[j].Record() {
      if jobs[i].Record() == jobs[j].Record() {
        KeyInjective(e.id, jobs[i].c.name, jobs[j].c.name);
      }
    }
  }

  /** Different events to different destinations can share a record. */
  lemma KeysCollide()
    ensures Key("a::b", "c") == Key("a", "b::c")
  {
    assert "a::b" + "::" + "c" == "a" + "::" + "b::c";
  }

  /** A letter in flight names its own event and destination. */
  ghost predicate LettersOwned(w: World, jobs: seq<Job>) {
    |w.tasks| == |jobs| &&
    forall i :: 0 <= i < |jobs| && w.tasks[i].phase.Promoting? ==> Owns(jobs[i])(w.tasks[i].phase.letter)
  }

  lemma ResumeOwned(w: World, i: nat, cfg: Config, jobs: seq<Job>)
    requires LettersOwned(w, jobs) && i < |jobs|
    ensures LettersOwned(Resume(w, i, cfg, jobs), jobs)
  {
  }

  lemma ResumeSelf(w: World, i: nat, cfg: Config, jobs: seq<Job>)
    requires LettersOwned(w, jobs) && i < |jobs|
    ensures View(Resume(w, i, cfg, jobs), i, jobs) == Step(View(w, i, jobs), cfg, jobs[i].c, jobs[i].e)
  {
    var t := w.tasks[i];
    if t.phase.Promoting? {
      FilterAppend(w.dlq, [t.phase.letter], Owns(jobs[i]));
      assert Filter([t.phase.letter], Owns(jobs[i])) == [t.phase.letter];
    }
  }

  // ---- which deliveries can interfere ----

  /** Promoting this record with an empty error changes nothing. */
  predicate Settled(r: Option<Ack>) {
    r.Some? && r.value.status == DlqPromoted && r.value.lastError == Some("")
  }

  /**
   Two deliveries have different records; or no sends are allowed, so that they
   only promote a record that is promoted already, and their letters differ.
   */
  predicate Compatible(records: map<string, Ack>, cfg: Config, a: Job, b: Job) {
    || a.Record() != b.Record()
    || (cfg.maxRetries < 1 && Settled(Get(records, a.Record())) && (a.e.id, a.c.name) != (b.e.id, b.c.name))
  }

  ghost predicate Independent(w: World, cfg: Config, jobs: seq<Job>) {
    forall i, j :: 0 <= i < |jobs| && 0 <= j < |jobs| && i != j ==> Compatible(w.records, cfg, jobs[i], jobs[j])
  }

  /** Without sends a delivery only promotes. */
  ghost predicate Quiet(w: World, cfg: Config) {
    cfg.maxRetries < 1 ==>
      forall i :: 0 <= i < |w.tasks| ==>
        w.tasks[i].phase.Starting? || w.tasks[i].phase.Promoting? || w.tasks[i].phase.Finished?
  }

  lemma ResumeQuiet(w: World, i: nat, cfg: Config, jobs: seq<Job>)
    requires i < |w.tasks| == |jobs| && Quiet(w, cfg)
    ensures Quiet(Resume(w, i, cfg, jobs), cfg)
  {
  }

  /** A resumed delivery changes no record but its own, and not even that if it is settled and sends are not allowed. */
  lemma ResumeRecords(w: World, i: nat, cfg: Config, jobs: seq<Job>, key: string)
    requires i < |w.tasks| == |jobs| && Quiet(w, cfg)
    requires key != jobs[i].Record() || (cfg.maxRetries < 1 && Settled(Get(w.records, key)))
    ensures Get(Resume(w, i, cfg, jobs).records, key) == Get(w.records, key)
  {
  }

  lemma ResumeIndependent(w: World, k: nat, cfg: Config, jobs: seq<Job>)
    requires k < |w.tasks| == |jobs| && Quiet(w, cfg) && Independent(w, cfg, jobs)
    ensures Independent(Resume(w, k, cfg, jobs), cfg, jobs)
  {
    forall i, j | 0 <= i < |jobs| && 0 <= j < |jobs| && i != j
      ensures Compatible(Resume(w, k, cfg, jobs).records, cfg, jobs[i], jobs[j])
    {
      assert Compatible(w.records, cfg, jobs[i], jobs[j]);
      if jobs[i].Record() == jobs[j].Record() {
        ResumeRecords(w, k, cfg, jobs, jobs[i].Record());
      }
    }
  }

  lemma ResumeOther(w: World, i: nat, j: nat, cfg: Config, jobs: seq<Job>)
    requires LettersOwned(w, jobs) && Quiet(w, cfg) && i < |jobs| && j < |jobs| && i != j
    requires Compatible(w.records, cfg, jobs[j], jobs[i])
    ensures View(Resume(w, i, cfg, jobs), j, jobs) == View(w, j, jobs)
  {
    ResumeRecords(w, i, cfg, jobs, jobs[j].Record());
    var t := w.tasks[i];
    if t.phase.Promoting? {
      FilterAppend(w.dlq, [t.phase.letter], Owns(jobs[j]));
      assert Filter([t.phase.letter], Owns(jobs[j])) == [];
    }
  }

  /** Nothing in the world lets deliveries interfere. */
  ghost predicate Orderly(w: World, cfg: Config, jobs: seq<Job>) {
    LettersOwned(w, jobs) && Quiet(w, cfg) && Independent(w, cfg, jobs)
  }

  lemma ResumeOrderly(w: World, i: nat, cfg: Config, jobs: seq<Job>)
    requires Orderly(w, cfg, jobs) && i < |jobs|
    ensures Orderly(Resume(w, i, cfg, jobs), cfg, jobs)
  {
    ResumeOwned(w, i, cfg, jobs);
    ResumeQuiet(w, i, cfg, jobs);
    ResumeIndependent(w, i, cfg, jobs);
  }

  lemma DistinctIsIndependent(w: World, cfg: Config, jobs: seq<Job>)
    requires DistinctKeys(jobs)
    ensures Independent(w, cfg, jobs)
  {
    forall i, j | 0 <= i < |jobs| && 0 <= j < |jobs| && i != j ensures jobs[i].Record() != jobs[j].Record() {
      assert if i < j then jobs[i].Record() != jobs[j].Record() else jobs[j].Record() != jobs[i].Record();
    }
  }

  /** Non-interference: under every schedule each delivery behaves as if run alone. */
  lemma {:induction false} Interleaving(w: World, order: seq<nat>, i: nat, cfg: Config, jobs: seq<Job>)
    requires Orderly(w, cfg, jobs) && i < |jobs| && ValidOrder(order, jobs)
    ensures Orderly(Schedule(w, order, cfg, jobs), cfg, jobs)
    ensures View(Schedule(w, order, cfg, jobs), i, jobs) ==
            Alone(View(w, i, jobs), Count(order, i), cfg, jobs[i].c, jobs[i].e)
    decreases |order|
  {
    if order != [] {
      var prefix, last := order[..|order| - 1], order[|order| - 1];
      Interleaving(w, prefix, i, cfg, jobs);
      var w' := Schedule(w, prefix, cfg, jobs);
      ResumeOrderly(w', last, cfg, jobs);
      if last == i {
        ResumeSelf(w', i, cfg, jobs);
      } else {
        ResumeOther(w', last, i, cfg, jobs);
      }
    }
  }

  // ---- exactly when deliveries do not interfere ----

  /** The world in which the deliveries start. */
  predicate Launched(w: World, cfg: Config, jobs: seq<Job>) {
    |w.tasks| == |jobs| && forall i :: 0 <= i < |jobs| ==> w.tasks[i] == Task(Starting, 1, cfg.initialBackoff, [])
  }

  ghost predicate AsAlone(w: World, order: seq<nat>, i: nat, cfg: Config, jobs: seq<Job>) {
    && i < |jobs| == |w.tasks| && ValidOrder(order, jobs)
    && View(Schedule(w, order, cfg, jobs), i, jobs) ==
       Alone(View(w, i, jobs), Count(order, i), cfg, jobs[i].c, jobs[i].e)
  }

  ghost predicate Undisturbed(w: World, cfg: Config, jobs: seq<Job>) {
    forall order, i: nat :: i < |jobs| && ValidOrder(order, jobs) ==> AsAlone(w, order, i, cfg, jobs)
  }

  lemma LaunchedIsOrderly(w: World, cfg: Config, jobs: seq<Job>)
    requires Launched(w, cfg, jobs) && Independent(w, cfg, jobs)
    ensures Orderly(w, cfg, jobs)
  {
  }

  /** Only delivery `i` is resumed, once and twice. */
  lemma ResumedOnly(w: World, i: nat, j: nat, cfg: Config, jobs: seq<Job>)
    requires |w.tasks| == |jobs| && i < |jobs| && i != j
    ensures Schedule(w, [i], cfg, jobs) == Resume(w, i, cfg, jobs) && Count([i], j) == 0
    ensures Schedule(w, [i, i], cfg, jobs) == Resume(Resume(w, i, cfg, jobs), i, cfg, jobs) && Count([i, i], j) == 0
  {
    var once, twice := [i], [i, i];
    assert once[..0] == [] && twice[..1] == once;
    assert Schedule(w, once[..0], cfg, jobs) == w && Count(once[..0], j) == 0;
    assert Schedule(w, once, cfg, jobs) == Resume(w, i, cfg, jobs) && Count(once, j) == 0;
  }

  /** A delivery whose record another one changes does not behave as if alone. */
  lemma SharedRecordShows(w: World, i: nat, j: nat, cfg: Config, jobs: seq<Job>)
    requires Launched(w, cfg, jobs) && i < |jobs| && j < |jobs| && i != j && jobs[i].Record() == jobs[j].Record()
    requires cfg.maxRetries >= 1 || !Settled(Get(w.records, jobs[i].Record()))
    ensures !AsAlone(w, [i], j, cfg, jobs)
  {
    ResumedOnly(w, i, j, cfg, jobs);
    assert View(Resume(w, i, cfg, jobs), j, jobs).ack != View(w, j, jobs).ack;
  }

  /** Nor does one that shares its dead letters with another. */
  lemma SharedLettersShow(w: World, i: nat, j: nat, cfg: Config, jobs: seq<Job>)
    requires Launched(w, cfg, jobs) && i < |jobs| && j < |jobs| && i != j && cfg.maxRetries < 1
    requires (jobs[i].e.id, jobs[i].c.name) == (jobs[j].e.id, jobs[j].c.name)
    ensures !AsAlone(w, [i, i], j, cfg, jobs)
  {
    ResumedOnly(w, i, j, cfg, jobs);
    var w1 := Resume(w, i, cfg, jobs);
    var letter := Exhausted(cfg, jobs[i].c, jobs[i].e, "");
    assert w1.tasks[i].phase == Promoting(letter) && w1.dlq == w.dlq;
    FilterAppend(w.dlq, [letter], Owns(jobs[j]));
    assert Filter([letter], Owns(jobs[j])) == [letter];
  }

  lemma ClashShows(w: World, i: nat, j: nat, cfg: Config, jobs: seq<Job>)
    requires Launched(w, cfg, jobs) && i < |jobs| && j < |jobs| && i != j
    requires !Compatible(w.records, cfg, jobs[i], jobs[j])
    ensures !Undisturbed(w, cfg, jobs)
  {
    assert ValidOrder([i], jobs) && ValidOrder([i, i], jobs);
    if cfg.maxRetries < 1 && Settled(Get(w.records, jobs[i].Record())) {
      SharedLettersShow(w, i, j, cfg, jobs);
    } else {
      SharedRecordShows(w, i, j, cfg, jobs);
    }
  }

  /**
   Every schedule leaves every delivery as if it ran alone exactly when no two
   share an acknowledgement record, but for records that are promoted already
   when no sends are allowed.
   */
  lemma UndisturbedExactly(w: World, cfg: Config, jobs: seq<Job>)
    requires Launched(w, cfg, jobs)
    ensures Undisturbed(w, cfg, jobs) <==> Independent(w, cfg, jobs)
    ensures cfg.maxRetries >= 1 ==> (Independent(w, cfg, jobs) <==> DistinctKeys(jobs))
  {
    if Independent(w, cfg, jobs) {
      LaunchedIsOrderly(w, cfg, jobs);
      forall order, i: nat | i < |jobs| && ValidOrder(order, jobs) ensures AsAlone(w, order, i, cfg, jobs) {
        Interleaving(w, order, i, cfg, jobs);
      }
    } else {
      var i, j :| 0 <= i < |jobs| && 0 <= j < |jobs| && i != j && !Compatible(w.records, cfg, jobs[i], jobs[j]);
      ClashShows(w, i, j, cfg, jobs);
    }
    if DistinctKeys(jobs) {
      DistinctIsIndependent(w, cfg, jobs);
    }
  }
}
